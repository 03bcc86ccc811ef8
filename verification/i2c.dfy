/**
 * The I2C master wrapper over the SCI simple-I2C driver of channel 6: it
 * checks the caller's arguments, fills the driver's control block (the
 * slave address and two data segments), starts a transaction, maps the
 * driver's return codes and device states to errno numbers, and for the
 * synchronous calls polls the device state until the transaction ends or
 * the timeout expires.
 *
 * The driver itself is not part of this model. What it returns from a
 * call is a parameter (`lib`), the calls the wrapper makes are recorded in
 * `libCalls`, and the device state it updates from its interrupt handler is
 * observed by the polling loop as a sequence of samples. Buffers are named
 * by pointers (`Ptr`), function pointers by an identifier.
 */
module I2c {
  import opened Common

  /** Return codes of the driver API (sci_iic_return_t); `Unlisted` is any code the wrapper does not name. */
  datatype IicReturn = Success | ErrLockFunc | ErrInvalidChan | ErrInvalidArg | ErrNoInit | ErrBusBusy | ErrOther | Unlisted

  /** Device states of the channel (sci_iic_ch_dev_status_t); `OtherState` is any state the wrapper does not name. */
  datatype DevStatus = NoInit | Idle | Communication | Nack | Finish | Error | OtherState

  /** A data pointer: NULL, or element `offset` of caller buffer `buffer`. */
  datatype Ptr = Null | At(buffer: nat, offset: nat)

  /** The part of the driver's control block the wrapper fills before a transaction. */
  datatype Info = Info(slave: nat, data1st: Ptr, cnt1st: nat, data2nd: Ptr, cnt2nd: nat)

  /** A call into the driver. */
  datatype LibCall = Open | MasterSend(info: Info) | MasterReceive(info: Info) | GenReset

  /** A call of the user's completion callback with its status argument. */
  datatype Notification = Notify(callback: nat, status: int)

  /** One pass of the polling loop: the tick and the device state it read. */
  datatype Sample = Sample(tick: Tick, sts: DevStatus)

  /** convert_status_to_errno: the device state at the end of a transaction as an errno number. */
  function StatusErrno(st: DevStatus): (r: int)
    ensures r == 0 <==> st == Idle || st == Finish || st == OtherState
    ensures st == Nack <==> r == EACCES
    ensures st == Communication <==> r == EBUSY
    ensures r in {0, ENOTSUP, EBUSY, EACCES, EIO}
  {
    match st
    case NoInit => ENOTSUP
    case Communication => EBUSY
    case Nack => EACCES
    case Error => EIO
    case Idle => 0
    case Finish => 0
    case OtherState => 0
  }

  /** convert_iic_return_to_errno: a driver return code as an errno number. */
  function ReturnErrno(ret: IicReturn): (r: int)
    ensures r == 0 <==> ret == Success || ret == Unlisted
    ensures r == EINVAL <==> ret == ErrInvalidArg || ret == ErrInvalidChan
    ensures r == EBUSY <==> ret == ErrLockFunc || ret == ErrBusBusy
    ensures r in {0, EINVAL, EBUSY, ENOTSUP, EIO}
  {
    match ret
    case ErrInvalidArg => EINVAL
    case ErrInvalidChan => EINVAL
    case ErrLockFunc => EBUSY
    case ErrBusBusy => EBUSY
    case ErrNoInit => ENOTSUP
    case ErrOther => EIO
    case Success => 0
    case Unlisted => 0
  }

  /** The memory cells a pointer and a count designate. */
  function Span(p: Ptr, n: nat): (r: seq<(nat, nat)>)
    requires p.At? || n == 0
    ensures |r| == n
  {
    if n == 0 then [] else seq(n, k requires 0 <= k < n => (p.buffer, p.offset + k))
  }

  /** The pointer one element further on. */
  function Next(p: Ptr): Ptr
    requires p.At?
  {
    At(p.buffer, p.offset + 1)
  }

  /** The argument check of i2c_master_send_async. */
  predicate SendValid(slave: nat, tx: Ptr, txLen: nat)
  {
    !(slave >= 0x80 || tx.Null? || txLen == 0)
  }

  /** The control block i2c_master_send_async fills: a 1-byte first segment and the rest of the payload after it. */
  function SendInfo(slave: nat, tx: Ptr, txLen: nat): (r: Info)
    requires SendValid(slave, tx, txLen)
    ensures r.slave == slave && r.data1st == tx && r.cnt1st == 1
    ensures r.cnt1st + r.cnt2nd == txLen
    ensures r.data2nd.Null? <==> txLen == 1
  {
    if txLen >= 2 then Info(slave, tx, 1, Next(tx), txLen - 1)
    else Info(slave, tx, 1, Null, 0)
  }

  /** The two segments of a send, one after the other, are exactly the caller's payload. */
  lemma SendSegmentsCoverPayload(slave: nat, tx: Ptr, txLen: nat)
    requires SendValid(slave, tx, txLen)
    ensures var i := SendInfo(slave, tx, txLen);
      Span(i.data1st, i.cnt1st) + Span(i.data2nd, i.cnt2nd) == Span(tx, txLen)
  {
    var i := SendInfo(slave, tx, txLen);
    var whole := Span(tx, txLen);
    var parts := Span(i.data1st, i.cnt1st) + Span(i.data2nd, i.cnt2nd);
    assert |parts| == |whole|;
    forall k | 0 <= k < |whole|
      ensures parts[k] == whole[k]
    {
      if k > 0 {
        assert parts[k] == Span(i.data2nd, i.cnt2nd)[k - 1];
      }
    }
  }

  /** The argument check of i2c_master_send_and_receive_async. */
  predicate TransferValid(slave: nat, tx: Ptr, txLen: nat, rx: Ptr, rxLen: nat)
  {
    !(slave >= 0x80 || (txLen > 0 && tx.Null?) || (rxLen > 0 && rx.Null?))
  }

  /** The control block i2c_master_send_and_receive_async fills: the payload first, then the receive buffer. */
  function TransferInfo(slave: nat, tx: Ptr, txLen: nat, rx: Ptr, rxLen: nat): (r: Info)
    requires TransferValid(slave, tx, txLen, rx, rxLen)
    ensures r.slave == slave && r.cnt1st == txLen && r.data2nd == rx && r.cnt2nd == rxLen
    ensures r.data1st.Null? <==> txLen == 0
    ensures txLen > 0 ==> r.data1st == tx
  {
    Info(slave, if txLen > 0 then tx else Null, txLen, rx, rxLen)
  }

  /** The result of an asynchronous start: EINVAL on bad arguments, else the driver's code as an errno number. */
  function StartResult(valid: bool, lib: IicReturn): (r: int)
    ensures !valid ==> r == EINVAL
    ensures valid ==> (r == 0 <==> lib == Success || lib == Unlisted)
    ensures r in {0, EINVAL, EBUSY, ENOTSUP, EIO}
  {
    if !valid then EINVAL else ReturnErrno(lib)
  }

  /** Whether the polling loop of wait_transaction_done leaves after reading this sample. */
  predicate Stops(s: Sample, begin: Tick, timeoutMs: Tick)
  {
    Elapsed(s.tick, begin) >= timeoutMs || s.sts in {Idle, Nack, Error, Finish}
  }

  /** The first sample from `k` on at which the polling loop leaves. */
  function FirstStop(samples: seq<Sample>, begin: Tick, timeoutMs: Tick, k: nat): (r: nat)
    requires k < |samples| && Stops(samples[|samples| - 1], begin, timeoutMs)
    ensures k <= r < |samples| && Stops(samples[r], begin, timeoutMs)
    decreases |samples| - k
  {
    if Stops(samples[k], begin, timeoutMs) then k else FirstStop(samples, begin, timeoutMs, k + 1)
  }

  /** The loop leaves at the first sample that ends it: every earlier one keeps it polling. */
  lemma {:induction false} FirstStopIsFirst(samples: seq<Sample>, begin: Tick, timeoutMs: Tick, k: nat, j: nat)
    requires k < |samples| && Stops(samples[|samples| - 1], begin, timeoutMs)
    requires k <= j < FirstStop(samples, begin, timeoutMs, k)
    ensures !Stops(samples[j], begin, timeoutMs)
    decreases |samples| - k
  {
    if j > k {
      FirstStopIsFirst(samples, begin, timeoutMs, k + 1, j);
    }
  }

  /** The result of wait_transaction_done for the state the loop left with. */
  function WaitResult(st: DevStatus): (r: int)
    ensures r == ETIMEDOUT <==> st == Communication
    ensures r == 0 <==> st == Idle || st == Finish || st == OtherState
    ensures st != Communication ==> r == StatusErrno(st)
  {
    if st == Communication then ETIMEDOUT else StatusErrno(st)
  }

  /** A transaction still in progress when the loop leaves means the timeout had elapsed. */
  lemma InProgressMeansTimedOut(samples: seq<Sample>, begin: Tick, timeoutMs: Tick)
    requires |samples| > 0 && Stops(samples[|samples| - 1], begin, timeoutMs)
    ensures var s := samples[FirstStop(samples, begin, timeoutMs, 0)];
      s.sts == Communication ==> Elapsed(s.tick, begin) >= timeoutMs
  {
  }

  /** i2c_is_busy: the BUSY bit (bit 0) of the status word, when the driver reports it. */
  function IsBusy(ret: IicReturn, statusWord: nat): (r: bool)
    ensures r ==> ret == Success
    ensures ret == Success ==> (r <==> statusWord % 2 == 1)
  {
    ret == Success && statusWord % 2 != 0
  }

  /**
   * The handler as written converts its own uninitialised variable instead
   * of the device state: when that indeterminate value happens to read as
   * SCI_IIC_IDLE, a transaction the slave NACKed is reported as success.
   */
  lemma NackReportedAsSuccess()
    ensures StatusErrno(Idle) == 0 && StatusErrno(Nack) == EACCES
  {
  }

  /** bool to int in C: true is 1, false is 0. */
  function BoolToInt(b: bool): (r: int)
    ensures r == 0 <==> !b
    ensures r == 1 <==> b
  {
    if b then 1 else 0
  }

  /**
   * i2c_master_receive_async returns bool, so i2c_master_receive_sync sees 1
   * for every error: no error the start can report is 1, so the real code is lost.
   */
  lemma ReceiveErrorCollapses(valid: bool, lib: IicReturn)
    requires StartResult(valid, lib) != 0
    ensures BoolToInt(StartResult(valid, lib) != 0) == 1 != StartResult(valid, lib)
  {
  }

  class Master {
    /** The control block handed to the driver (s_slave_addr and the segment fields of s_sci_iic_info). */
    var info: Info
    /** The channel's device state, updated by the driver. */
    var devSts: DevStatus
    /** s_callback: the user's completion callback, None for NULL. */
    var callback: Option<nat>
    /** Every call made into the driver, in order. */
    var libCalls: seq<LibCall>
    /** Every call of the user's callback, in order. */
    var notified: seq<Notification>

    /** i2c_init: no callback, an empty control block in the not-initialised state, then the driver is opened. */
    constructor ()
      ensures callback == None && devSts == NoInit
      ensures info == Info(0, Null, 0, Null, 0)
      ensures libCalls == [Open] && notified == []
    {
      callback := None;
      info := Info(0, Null, 0, Null, 0);
      devSts := NoInit;
      libCalls := [Open];
      notified := [];
    }

    /** i2c_master_send_async */
    method SendAsync(slave: nat, tx: Ptr, txLen: nat, cb: Option<nat>, lib: IicReturn) returns (r: int)
      modifies this
      ensures r == StartResult(SendValid(slave, tx, txLen), lib)
      ensures !SendValid(slave, tx, txLen) ==> unchanged(this)
      ensures SendValid(slave, tx, txLen) ==>
        info == SendInfo(slave, tx, txLen)
        && libCalls == old(libCalls) + [MasterSend(info)]
        && callback == (if lib == Success then cb else old(callback))
        && devSts == old(devSts) && notified == old(notified)
    {
      if slave >= 0x80 || tx.Null? || txLen == 0 {
        r := EINVAL;
      } else {
        if txLen >= 2 {
          info := Info(slave, tx, 1, Next(tx), txLen - 1);
        } else {
          info := Info(slave, tx, 1, Null, 0);
        }
        libCalls := libCalls + [MasterSend(info)];
        if lib == Success {
          callback := cb;
        }
        r := ReturnErrno(lib);
      }
    }

    /** i2c_master_send_and_receive_async */
    method SendAndReceiveAsync(slave: nat, tx: Ptr, txLen: nat, rx: Ptr, rxLen: nat, cb: Option<nat>, lib: IicReturn)
      returns (r: int)
      modifies this
      ensures r == StartResult(TransferValid(slave, tx, txLen, rx, rxLen), lib)
      ensures !TransferValid(slave, tx, txLen, rx, rxLen) ==> unchanged(this)
      ensures TransferValid(slave, tx, txLen, rx, rxLen) ==>
        info == TransferInfo(slave, tx, txLen, rx, rxLen)
        && libCalls == old(libCalls) + [MasterReceive(info)]
        && callback == (if lib == Success then cb else old(callback))
        && devSts == old(devSts) && notified == old(notified)
    {
      if slave >= 0x80 || (txLen > 0 && tx.Null?) || (rxLen > 0 && rx.Null?) {
        r := EINVAL;
      } else {
        info := Info(slave, if txLen > 0 then tx else Null, txLen, rx, rxLen);
        libCalls := libCalls + [MasterReceive(info)];
        if lib == Success {
          callback := cb;
        }
        r := ReturnErrno(lib);
      }
    }

    /** i2c_master_receive_async: a transfer with no payload, its errno result narrowed to bool. */
    method ReceiveAsync(slave: nat, rx: Ptr, rxLen: nat, cb: Option<nat>, lib: IicReturn) returns (failed: bool)
      modifies this
      ensures failed <==> StartResult(TransferValid(slave, Null, 0, rx, rxLen), lib) != 0
      ensures !TransferValid(slave, Null, 0, rx, rxLen) ==> unchanged(this)
      ensures TransferValid(slave, Null, 0, rx, rxLen) ==>
        info == Info(slave, Null, 0, rx, rxLen)
        && libCalls == old(libCalls) + [MasterReceive(info)]
        && callback == (if lib == Success then cb else old(callback))
        && devSts == old(devSts) && notified == old(notified)
    {
      var r := SendAndReceiveAsync(slave, Null, 0, rx, rxLen, cb, lib);
      failed := r != 0;
    }

    /**
     * wait_transaction_done: polls until the device state ends the
     * transaction or `timeoutMs` has elapsed since `begin`; a transaction
     * still in progress then is reset and reported as ETIMEDOUT.
     */
    method WaitTransactionDone(timeoutMs: Tick, begin: Tick, samples: seq<Sample>) returns (r: int)
      requires |samples| > 0 && Stops(samples[|samples| - 1], begin, timeoutMs)
      modifies this
      ensures var st := samples[FirstStop(samples, begin, timeoutMs, 0)].sts;
        devSts == st && r == WaitResult(st)
        && libCalls == old(libCalls) + (if st == Communication then [GenReset] else [])
      ensures info == old(info) && callback == old(callback) && notified == old(notified)
    {
      var k := 0;
      while !Stops(samples[k], begin, timeoutMs)
        invariant 0 <= k < |samples|
        invariant FirstStop(samples, begin, timeoutMs, k) == FirstStop(samples, begin, timeoutMs, 0)
        decreases |samples| - k
      {
        k := k + 1;
      }
      devSts := samples[k].sts;
      var status := devSts;
      if status == Communication {
        libCalls := libCalls + [GenReset];
        r := ETIMEDOUT;
      } else {
        r := StatusErrno(status);
      }
    }

    /** i2c_master_send_sync: a send without callback, then the wait when it started. */
    method SendSync(slave: nat, tx: Ptr, txLen: nat, timeoutMs: Tick, lib: IicReturn, begin: Tick, samples: seq<Sample>)
      returns (r: int)
      requires |samples| > 0 && Stops(samples[|samples| - 1], begin, timeoutMs)
      modifies this
      ensures var start := StartResult(SendValid(slave, tx, txLen), lib);
        r == if start != 0 then start else WaitResult(samples[FirstStop(samples, begin, timeoutMs, 0)].sts)
      ensures lib == Success && SendValid(slave, tx, txLen) ==> callback == None
    {
      r := SendAsync(slave, tx, txLen, None, lib);
      if r == 0 {
        r := WaitTransactionDone(timeoutMs, begin, samples);
      }
    }

    /** i2c_master_send_and_receive_sync */
    method SendAndReceiveSync(slave: nat, tx: Ptr, txLen: nat, rx: Ptr, rxLen: nat, timeoutMs: Tick, lib: IicReturn,
                              begin: Tick, samples: seq<Sample>)
      returns (r: int)
      requires |samples| > 0 && Stops(samples[|samples| - 1], begin, timeoutMs)
      modifies this
      ensures var start := StartResult(TransferValid(slave, tx, txLen, rx, rxLen), lib);
        r == if start != 0 then start else WaitResult(samples[FirstStop(samples, begin, timeoutMs, 0)].sts)
      ensures lib == Success && TransferValid(slave, tx, txLen, rx, rxLen) ==> callback == None
    {
      r := SendAndReceiveAsync(slave, tx, txLen, rx, rxLen, None, lib);
      if r == 0 {
        r := WaitTransactionDone(timeoutMs, begin, samples);
      }
    }

    /** i2c_master_receive_sync as written: the bool start result makes every start error 1. */
    method ReceiveSyncAsWritten(slave: nat, rx: Ptr, rxLen: nat, timeoutMs: Tick, lib: IicReturn, begin: Tick, samples: seq<Sample>)
      returns (r: int)
      requires |samples| > 0 && Stops(samples[|samples| - 1], begin, timeoutMs)
      modifies this
      ensures var start := StartResult(TransferValid(slave, Null, 0, rx, rxLen), lib);
        r == if start != 0 then 1 else WaitResult(samples[FirstStop(samples, begin, timeoutMs, 0)].sts)
    {
      var failed := ReceiveAsync(slave, rx, rxLen, None, lib);
      r := BoolToInt(failed);
      if r == 0 {
        r := WaitTransactionDone(timeoutMs, begin, samples);
      }
    }

    /** i2c_master_receive_sync corrected: the start's errno number is returned as the other sync calls do. */
    method ReceiveSync(slave: nat, rx: Ptr, rxLen: nat, timeoutMs: Tick, lib: IicReturn, begin: Tick, samples: seq<Sample>)
      returns (r: int)
      requires |samples| > 0 && Stops(samples[|samples| - 1], begin, timeoutMs)
      modifies this
      ensures var start := StartResult(TransferValid(slave, Null, 0, rx, rxLen), lib);
        r == if start != 0 then start else WaitResult(samples[FirstStop(samples, begin, timeoutMs, 0)].sts)
      ensures slave >= 0x80 ==> r == EINVAL
    {
      r := SendAndReceiveAsync(slave, Null, 0, rx, rxLen, None, lib);
      if r == 0 {
        r := WaitTransactionDone(timeoutMs, begin, samples);
      }
    }

    /** on_transaction_done as written: the user callback gets the errno of an indeterminate state. */
    method OnTransactionDoneAsWritten(indeterminate: DevStatus)
      modifies this
      ensures notified == old(notified) + (if callback.Some? then [Notify(callback.value, StatusErrno(indeterminate))] else [])
      ensures info == old(info) && devSts == old(devSts) && callback == old(callback) && libCalls == old(libCalls)
    {
      if callback.Some? {
        notified := notified + [Notify(callback.value, StatusErrno(indeterminate))];
      }
    }

    /** on_transaction_done corrected: the user callback gets the errno of the device state at completion. */
    method OnTransactionDone()
      modifies this
      ensures notified == old(notified) + (if callback.Some? then [Notify(callback.value, StatusErrno(devSts))] else [])
      ensures info == old(info) && devSts == old(devSts) && callback == old(callback) && libCalls == old(libCalls)
    {
      if callback.Some? {
        var st := devSts;
        notified := notified + [Notify(callback.value, StatusErrno(st))];
      }
    }
  }
}
