/**
 * The single-message engine of src/packet_msg.c: `msg_sock` configures the
 * socket, `msg_init` dispatches into `msg_rx` or `msg_tx`, and those loops call
 * `recvmsg`/`sendmsg` once per iteration and account for the result.
 *
 * The `while(1)` loops run until the thread is cancelled from outside; the model
 * runs them over any finite sequence of syscall results, one per iteration.
 */
module PacketMsg {
  import opened Worker
  import opened SockSetup

  /** `recvmsg` and `sendmsg` return -1 or the number of bytes transferred. */
  predicate SyscallResults(rets: seq<int>)
  {
    forall k :: 0 <= k < |rets| ==> rets[k] >= -1
  }

  // ---------------------------------------------------------------------------
  // Accounting, as functions of the counters before the loop and the results.

  /** The counters after `msg_rx` has seen the results `rets`. */
  function RxRun(c: Counters, rets: seq<int>): Counters
    requires SyscallResults(rets)
    decreases |rets|
  {
    if rets == [] then c
    else
      var before := RxRun(c, rets[..|rets| - 1]);
      var ret := rets[|rets| - 1];
      if ret == -1 then before.(skErr := before.skErr + 1)
      else before.(rxBytes := before.rxBytes + ret, rxFrms := before.rxFrms + 1)
  }

  /** The counters after `msg_tx` has seen the results `rets`. */
  function TxRun(c: Counters, rets: seq<int>): Counters
    requires SyscallResults(rets)
    decreases |rets|
  {
    if rets == [] then c
    else
      var before := TxRun(c, rets[..|rets| - 1]);
      var ret := rets[|rets| - 1];
      if ret == -1 then before.(skErr := before.skErr + 1)
      else before.(txBytes := before.txBytes + ret, txFrms := before.txFrms + 1)
  }

  /** The number of failed calls. */
  function Failures(rets: seq<int>): (n: nat)
    ensures n <= |rets|
  {
    if rets == [] then 0 else (if rets[0] == -1 then 1 else 0) + Failures(rets[1..])
  }

  /** The bytes the successful calls transferred. */
  function Transferred(rets: seq<int>): nat
    requires SyscallResults(rets)
  {
    if rets == [] then 0 else (if rets[0] == -1 then 0 else rets[0]) + Transferred(rets[1..])
  }

  /** Counting and summing from the back agrees with counting and summing from the front. */
  lemma {:induction false} FailuresSnoc(rets: seq<int>, ret: int)
    requires SyscallResults(rets) && ret >= -1
    ensures Failures(rets + [ret]) == Failures(rets) + (if ret == -1 then 1 else 0)
    ensures Transferred(rets + [ret]) == Transferred(rets) + (if ret == -1 then 0 else ret)
  {
    if rets != [] {
      assert (rets + [ret])[1..] == rets[1..] + [ret];
      FailuresSnoc(rets[1..], ret);
    }
  }

  /** After any number of `msg_rx` iterations, the error count has grown by the number
      of failed calls, the received bytes by the bytes they returned, the received
      frames by the number of successful calls, and the transmit counters are untouched. */
  lemma {:induction false} RxRunTotals(c: Counters, rets: seq<int>)
    requires SyscallResults(rets)
    ensures RxRun(c, rets) == c.(skErr := c.skErr + Failures(rets),
                                 rxBytes := c.rxBytes + Transferred(rets),
                                 rxFrms := c.rxFrms + |rets| - Failures(rets))
    decreases |rets|
  {
    if rets != [] {
      var init := rets[..|rets| - 1];
      RxRunTotals(c, init);
      assert rets == init + [rets[|rets| - 1]];
      FailuresSnoc(init, rets[|rets| - 1]);
    }
  }

  /** The same for `msg_tx`, on the transmit counters. */
  lemma {:induction false} TxRunTotals(c: Counters, rets: seq<int>)
    requires SyscallResults(rets)
    ensures TxRun(c, rets) == c.(skErr := c.skErr + Failures(rets),
                                 txBytes := c.txBytes + Transferred(rets),
                                 txFrms := c.txFrms + |rets| - Failures(rets))
    decreases |rets|
  {
    if rets != [] {
      var init := rets[..|rets| - 1];
      TxRunTotals(c, init);
      assert rets == init + [rets[|rets| - 1]];
      FailuresSnoc(init, rets[|rets| - 1]);
    }
  }

  /** On a socket that always fails, n iterations of either loop raise the error
      count by exactly n and leave every other counter as it was. */
  lemma AlwaysFailing(c: Counters, rets: seq<int>)
    requires forall k :: 0 <= k < |rets| ==> rets[k] == -1
    ensures RxRun(c, rets) == TxRun(c, rets) == c.(skErr := c.skErr + |rets|)
  {
    RxRunTotals(c, rets);
    TxRunTotals(c, rets);
    AllFailures(rets);
  }

  lemma {:induction false} AllFailures(rets: seq<int>)
    requires forall k :: 0 <= k < |rets| ==> rets[k] == -1
    ensures Failures(rets) == |rets| && Transferred(rets) == 0
  {
    if rets != [] {
      AllFailures(rets[1..]);
    }
  }

  /** No counter ever decreases. */
  lemma RunsNeverDecrease(c: Counters, rets: seq<int>)
    requires SyscallResults(rets)
    ensures NoneDecreased(c, RxRun(c, rets)) && NoneDecreased(c, TxRun(c, rets))
  {
    RxRunTotals(c, rets);
    TxRunTotals(c, rets);
  }

  // ---------------------------------------------------------------------------
  // The loops.

  /** `msg_rx`: marks the worker started, then per iteration adds one to the error
      count if `recvmsg` returned -1 and otherwise adds the returned bytes and one
      frame. */
  method MsgRx(t: ThdOpt, rets: seq<int>)
    requires SyscallResults(rets)
    modifies t
    ensures t.started && t.sock == old(t.sock)
    ensures t.Counts() == RxRun(old(t.Counts()), rets)
  {
    t.started := true;
    ghost var c0 := t.Counts();
    var k := 0;
    while k < |rets|
      invariant k <= |rets|
      invariant t.started && t.sock == old(t.sock)
      invariant t.Counts() == RxRun(c0, rets[..k])
    {
      var rxBytes := rets[k];
      if rxBytes == -1 {
        t.skErr := t.skErr + 1;
      } else {
        t.rxBytes := t.rxBytes + rxBytes;
        t.rxFrms := t.rxFrms + 1;
      }
      assert rets[..k + 1][..k] == rets[..k];
      k := k + 1;
    }
    assert rets[..k] == rets;
  }

  /** `msg_tx`: the same loop around `sendmsg`, on the transmit counters. */
  method MsgTx(t: ThdOpt, rets: seq<int>)
    requires SyscallResults(rets)
    modifies t
    ensures t.started && t.sock == old(t.sock)
    ensures t.Counts() == TxRun(old(t.Counts()), rets)
  {
    t.started := true;
    ghost var c0 := t.Counts();
    var k := 0;
    while k < |rets|
      invariant k <= |rets|
      invariant t.started && t.sock == old(t.sock)
      invariant t.Counts() == TxRun(c0, rets[..k])
    {
      var txBytes := rets[k];
      if txBytes == -1 {
        t.skErr := t.skErr + 1;
      } else {
        t.txBytes := t.txBytes + txBytes;
        t.txFrms := t.txFrms + 1;
      }
      assert rets[..k + 1][..k] == rets[..k];
      k := k + 1;
    }
    assert rets[..k] == rets;
  }

  // ---------------------------------------------------------------------------
  // Configuration and dispatch.

  /** `msg_sock`: the configuration steps in order with early returns, without a
      QLEN step; `calls` lists the steps issued. */
  method MsgSock(t: ThdOpt, result: Op -> int) returns (status: int, calls: seq<Op>)
    modifies t
    ensures t.sock == result(Create)
    ensures status == Status(Plan(t.skMode, t.thdNr, false), result)
    ensures calls == Attempted(Plan(t.skMode, t.thdNr, false), result)
    ensures t.Counts() == old(t.Counts()) && t.started == old(t.started)
  {
    ghost var plan := Plan(t.skMode, t.thdNr, false);
    var ok;
    ok, calls := SharedSteps(t, result, false);
    if !ok {
      return ExitFailure, calls;
    }
    if t.thdNr > 1 {
      if result(Fanout) < 0 {
        Stop(plan, calls, Fanout, [], result);
        return ExitFailure, calls + [Fanout];
      }
      Pass(plan, calls, Fanout, [], result);
      calls := calls + [Fanout];
    } else {
      assert AfterTs(t.thdNr, false) == [];
    }
    Finish(plan, calls, result);
    return ExitSuccess, calls;
  }

  /** `msg_init`: configures the socket and enters no loop when that fails, the
      receive loop in receive mode and the transmit loop in transmit mode;
      `rets` are the results of that loop's syscalls. */
  method MsgInit(t: ThdOpt, result: Op -> int, rets: seq<int>) returns (entered: Loop)
    requires SyscallResults(rets)
    modifies t
    ensures var status := Status(Plan(t.skMode, t.thdNr, false), result);
      entered == (if status != ExitSuccess then NoLoop else if t.skMode == Rx then RxLoop else TxLoop)
    ensures entered == NoLoop ==> t.Counts() == old(t.Counts()) && t.started == old(t.started)
    ensures entered == RxLoop ==> t.Counts() == RxRun(old(t.Counts()), rets)
    ensures entered == TxLoop ==> t.Counts() == TxRun(old(t.Counts()), rets)
    ensures entered != NoLoop ==> t.started
    ensures t.sock == result(Create)
  {
    var status, _ := MsgSock(t, result);
    if status != ExitSuccess {
      return NoLoop;
    }
    if t.skMode == Rx {
      MsgRx(t, rets);
      entered := RxLoop;
    } else {
      MsgTx(t, rets);
      entered := TxLoop;
    }
  }
}
