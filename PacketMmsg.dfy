/**
 * The batched engine of src/packet_mmsg.c: `mmsg_sock` configures the socket,
 * `mmsg_init` dispatches into `mmsg_rx` or `mmsg_tx`, and those loops hand a
 * whole vector of messages to `recvmmsg`/`sendmmsg` per iteration and account
 * for the result from the `msg_len` fields of the vector.
 *
 * The kernel is an oracle: each call contributes its return value and the
 * `msg_len` values it writes for the messages it transferred. The `while(1)`
 * loops run over any finite sequence of such calls.
 */
module PacketMmsg {
  import opened Bytes
  import opened Worker
  import opened SockSetup
  import opened UdpFrame
  import opened MmsgWindow
  import opened MmsgSlots

  /** What one `recvmmsg`/`sendmmsg` call does: its return value, and the `msg_len`
      values it stores for the messages it transferred, first message first. */
  datatype MmsgCall = MmsgCall(ret: int, lens: seq<nat>)

  /** The counters and the `msg_len` fields of the message vector. */
  datatype State = State(counts: Counters, msgLen: seq<nat>)

  /** `msg_len` after a call stored `lens` for the messages from entry `off` on. */
  function Overwrite(l: seq<nat>, off: nat, lens: seq<nat>): (r: seq<nat>)
    requires off + |lens| <= |l|
    ensures |r| == |l|
  {
    l[..off] + lens + l[off + |lens|..]
  }

  /** The sum of the `msg_len` values `s`. */
  function Sum(s: seq<nat>): nat
  {
    if s == [] then 0 else Sum(s[..|s| - 1]) + s[|s| - 1]
  }

  /** The number of nonzero `msg_len` values in `s`. */
  function Nonzero(s: seq<nat>): nat
  {
    if s == [] then 0 else Nonzero(s[..|s| - 1]) + (if s[|s| - 1] > 0 then 1 else 0)
  }

  // ---------------------------------------------------------------------------
  // Receive accounting (`mmsg_rx`).

  /** `recvmmsg` returns -1 or the number of messages received, and stores a length
      for at most the whole vector; on an error after some messages arrived it
      returns -1 and still stores their lengths. */
  predicate RxCallOk(vlen: nat, call: MmsgCall)
  {
    call.ret >= -1 && |call.lens| <= vlen && (call.ret >= 0 ==> call.ret == |call.lens|)
  }

  /** One iteration of `mmsg_rx`: the call stores lengths from the start of the
      vector, a return of -1 counts one error, and then every slot with a nonzero
      `msg_len` counts its length and one frame. */
  function RxBatch(s: State, call: MmsgCall): (r: State)
    requires |call.lens| <= |s.msgLen|
    ensures |r.msgLen| == |s.msgLen|
  {
    var l := Overwrite(s.msgLen, 0, call.lens);
    var c := if call.ret == -1 then s.counts.(skErr := s.counts.skErr + 1) else s.counts;
    State(c.(rxBytes := c.rxBytes + Sum(l), rxFrms := c.rxFrms + Nonzero(l)), l)
  }

  /** The state after the receive calls `calls`. */
  function RxRun(s: State, calls: seq<MmsgCall>): (r: State)
    requires forall k :: 0 <= k < |calls| ==> RxCallOk(|s.msgLen|, calls[k])
    ensures |r.msgLen| == |s.msgLen|
    decreases |calls|
  {
    if calls == [] then s
    else
      var n := |calls| - 1;
      assert RxCallOk(|s.msgLen|, calls[n]);
      RxBatch(RxRun(s, calls[..n]), calls[n])
  }

  /** The receive counters do not depend on what `recvmmsg` returned: two calls that
      store the same lengths count the same bytes and frames, and only the error
      count tells -1 from any other return. */
  lemma RxCountsIgnoreReturn(s: State, lens: seq<nat>, r1: int, r2: int)
    requires |lens| <= |s.msgLen|
    ensures var a, b := RxBatch(s, MmsgCall(r1, lens)), RxBatch(s, MmsgCall(r2, lens));
      a.msgLen == b.msgLen && a.counts.rxBytes == b.counts.rxBytes && a.counts.rxFrms == b.counts.rxFrms
      && (a.counts.skErr == s.counts.skErr + 1 <==> r1 == -1)
  {
  }

  /** The `msg_len` fields are never cleared: a call that receives nothing counts
      again every length left from earlier calls. */
  lemma RxStaleLengthsCountAgain(s: State, ret: int)
    ensures var r := RxBatch(s, MmsgCall(ret, []));
      r.msgLen == s.msgLen
      && r.counts.rxBytes == s.counts.rxBytes + Sum(s.msgLen)
      && r.counts.rxFrms == s.counts.rxFrms + Nonzero(s.msgLen)
  {
    assert Overwrite(s.msgLen, 0, []) == s.msgLen;
  }

  lemma SumPair(a: nat, b: nat)
    ensures Sum([a, b]) == a + b
    ensures Nonzero([a, b]) == (if a > 0 then 1 else 0) + (if b > 0 then 1 else 0)
  {
    assert [a, b][..1] == [a] && [a][..0] == [];
    assert Sum([a]) == a && Nonzero([a]) == (if a > 0 then 1 else 0);
  }

  lemma RxFirstFrame()
    ensures RxBatch(State(Zero, [0, 0]), MmsgCall(1, [60])) == State(Counters(0, 60, 1, 0, 0), [60, 0])
  {
    assert Overwrite([0, 0], 0, [60]) == [60, 0];
    SumPair(60, 0);
  }

  /** Two slots: one frame of 60 bytes arrives, then a call receives nothing; the
      counters show two frames and 120 bytes. */
  lemma RxStaleExample()
    ensures RxBatch(RxBatch(State(Zero, [0, 0]), MmsgCall(1, [60])), MmsgCall(0, [])).counts
         == Counters(0, 120, 2, 0, 0)
  {
    RxFirstFrame();
    SumPair(60, 0);
    RxStaleLengthsCountAgain(State(Counters(0, 60, 1, 0, 0), [60, 0]), 0);
  }

  /** The number of calls that returned -1. */
  function Failed(calls: seq<MmsgCall>): nat
  {
    if calls == [] then 0 else Failed(calls[..|calls| - 1]) + (if calls[|calls| - 1].ret == -1 then 1 else 0)
  }

  /** Across any number of receive calls the error count grows by the number of failed
      calls, no counter decreases, and the transmit counters are untouched. */
  lemma {:induction false} RxRunCounts(s: State, calls: seq<MmsgCall>)
    requires forall k :: 0 <= k < |calls| ==> RxCallOk(|s.msgLen|, calls[k])
    ensures var r := RxRun(s, calls).counts;
      r.skErr == s.counts.skErr + Failed(calls) && NoneDecreased(s.counts, r)
      && r.txBytes == s.counts.txBytes && r.txFrms == s.counts.txFrms
    decreases |calls|
  {
    if calls != [] {
      RxRunCounts(s, calls[..|calls| - 1]);
    }
  }

  // ---------------------------------------------------------------------------
  // Transmit accounting (`mmsg_tx`).

  /** `sendmmsg` returns -1 having sent nothing, or the number of messages it sent
      from the window, storing a length for each. */
  predicate TxCallOk(w: Window, call: MmsgCall)
  {
    (call.ret == -1 && call.lens == []) || (call.ret >= 0 && call.ret == |call.lens| <= w.cnt)
  }

  /** The calls `calls` fit the windows the scheduler hands them. */
  predicate TxCallsOk(vlen: nat, calls: seq<MmsgCall>)
  {
    forall k :: 0 <= k < |calls| ==> TxCallOk(WindowAt(vlen, IndexBefore(vlen, k)), calls[k])
  }

  /** One iteration of `mmsg_tx` on window `w`: the call stores lengths for the
      messages it sent from the window; -1 counts one error; otherwise the sent
      messages count as frames and the `msg_len` of the first `w.cnt` entries of the
      vector, counted from its start rather than from the window, as bytes. */
  function TxBatch(s: State, w: Window, call: MmsgCall): (r: State)
    requires w.off + w.cnt <= |s.msgLen| && TxCallOk(w, call)
    ensures |r.msgLen| == |s.msgLen|
  {
    var l := Overwrite(s.msgLen, w.off, call.lens);
    if call.ret == -1 then State(s.counts.(skErr := s.counts.skErr + 1), l)
    else State(s.counts.(txBytes := s.counts.txBytes + Sum(l[..w.cnt]),
                         txFrms := s.counts.txFrms + call.ret), l)
  }

  /** The state after the first `n` of the transmit calls `calls`, each on the window
      the scheduler picks for it. */
  function TxRun(s: State, calls: seq<MmsgCall>, n: nat): (r: State)
    requires n <= |calls| && TxCallsOk(|s.msgLen|, calls)
    ensures |r.msgLen| == |s.msgLen|
  {
    if n == 0 then s
    else TxBatch(TxRun(s, calls, n - 1), WindowAt(|s.msgLen|, IndexBefore(|s.msgLen|, n - 1)), calls[n - 1])
  }

  /** The bytes counted for a window that starts at or after the end of the first
      `cnt` entries do not depend on what that call sent. */
  lemma TxBytesFromVectorStart(s: State, w: Window, call: MmsgCall)
    requires w.off + w.cnt <= |s.msgLen| && TxCallOk(w, call) && call.ret >= 0
    requires w.off >= w.cnt
    ensures TxBatch(s, w, call).counts.txBytes == s.counts.txBytes + Sum(s.msgLen[..w.cnt])
  {
    var l := Overwrite(s.msgLen, w.off, call.lens);
    assert l[..w.cnt] == s.msgLen[..w.cnt];
  }

  /** The number of messages the successful calls report sent. */
  function Sent(calls: seq<MmsgCall>): nat
  {
    if calls == [] then 0
    else Sent(calls[..|calls| - 1]) + (if calls[|calls| - 1].ret >= 0 then calls[|calls| - 1].ret else 0)
  }

  /** Extending a prefix of the calls by one call adds that call's failure and
      sent messages to the tallies. */
  lemma PrefixTallies(calls: seq<MmsgCall>, n: nat)
    requires 0 < n <= |calls|
    ensures Failed(calls[..n]) == Failed(calls[..n - 1]) + (if calls[n - 1].ret == -1 then 1 else 0)
    ensures Sent(calls[..n]) == Sent(calls[..n - 1]) + (if calls[n - 1].ret >= 0 then calls[n - 1].ret else 0)
  {
    assert calls[..n][..n - 1] == calls[..n - 1];
  }

  /** One transmit call counts one error when it fails and its reported messages
      otherwise, and leaves the receive counters alone. */
  lemma TxBatchCounts(s: State, w: Window, call: MmsgCall)
    requires w.off + w.cnt <= |s.msgLen| && TxCallOk(w, call)
    ensures var r := TxBatch(s, w, call).counts;
      r.skErr == s.counts.skErr + (if call.ret == -1 then 1 else 0)
      && r.txFrms == s.counts.txFrms + (if call.ret >= 0 then call.ret else 0)
      && NoneDecreased(s.counts, r)
      && r.rxBytes == s.counts.rxBytes && r.rxFrms == s.counts.rxFrms
  {
  }

  /** Across any number of transmit calls the error count grows by the number of
      failed calls, the frame count by the messages reported sent, no counter
      decreases and the receive counters are untouched. */
  lemma {:induction false} TxRunCounts(s: State, calls: seq<MmsgCall>, n: nat)
    requires n <= |calls| && TxCallsOk(|s.msgLen|, calls)
    ensures var r := TxRun(s, calls, n).counts;
      r.skErr == s.counts.skErr + Failed(calls[..n]) && r.txFrms == s.counts.txFrms + Sent(calls[..n])
      && NoneDecreased(s.counts, r)
      && r.rxBytes == s.counts.rxBytes && r.rxFrms == s.counts.rxFrms
  {
    if n > 0 {
      TxRunCounts(s, calls, n - 1);
      var vlen := |s.msgLen|;
      TxBatchCounts(TxRun(s, calls, n - 1), WindowAt(vlen, IndexBefore(vlen, n - 1)), calls[n - 1]);
      PrefixTallies(calls, n);
    }
  }

  /** With at most 1024 entries nothing is ever sent: every call asks for 0 messages,
      so the transmit counters never move and only errors are counted. */
  lemma {:induction false} ShortVectorNeverTransmits(s: State, calls: seq<MmsgCall>, n: nat)
    requires |s.msgLen| <= Batch && n <= |calls| && TxCallsOk(|s.msgLen|, calls)
    ensures TxRun(s, calls, n).counts == s.counts.(skErr := s.counts.skErr + Failed(calls[..n]))
  {
    if n > 0 {
      ShortVectorNeverTransmits(s, calls, n - 1);
      ShortVectorRequestsNothing(|s.msgLen|, n - 1);
      var prev, call := TxRun(s, calls, n - 1), calls[n - 1];
      assert TxCallOk(WindowAt(|s.msgLen|, IndexBefore(|s.msgLen|, n - 1)), call);
      assert call.lens == [] && (call.ret == -1 || call.ret == 0);
      assert Overwrite(prev.msgLen, 0, [])[..0] == [];
      PrefixTallies(calls, n);
    }
  }

  // ---------------------------------------------------------------------------
  // The loops.

  /** The `msg_len` fields after `memset(mmsg_hdr, 0, ...)`. */
  function Zeros(n: nat): seq<nat>
  {
    seq(n, _ => 0)
  }

  /** The kernel's side of `recvmmsg`/`sendmmsg`: the `msg_len` of each message it
      transferred, from entry `off` of the vector on. */
  method StoreLengths(msgLen: array<nat>, off: nat, lens: seq<nat>)
    requires off + |lens| <= msgLen.Length
    modifies msgLen
    ensures msgLen[..] == Overwrite(old(msgLen[..]), off, lens)
  {
    forall k | 0 <= k < |lens| {
      msgLen[off + k] := lens[k];
    }
  }

  /** The slot scan of `mmsg_rx`: every slot with a nonzero `msg_len` adds its length
      to the received bytes and one to the received frames. */
  method RxScan(t: ThdOpt, msgLen: array<nat>)
    modifies t
    ensures t.Counts() == old(t.Counts()).(rxBytes := old(t.rxBytes) + Sum(msgLen[..]),
                                           rxFrms := old(t.rxFrms) + Nonzero(msgLen[..]))
    ensures t.started == old(t.started) && t.sock == old(t.sock)
  {
    for i := 0 to msgLen.Length
      invariant t.started == old(t.started) && t.sock == old(t.sock)
      invariant t.Counts() == old(t.Counts()).(rxBytes := old(t.rxBytes) + Sum(msgLen[..i]),
                                               rxFrms := old(t.rxFrms) + Nonzero(msgLen[..i]))
    {
      if msgLen[i] > 0 {
        t.rxBytes := t.rxBytes + msgLen[i];
        t.rxFrms := t.rxFrms + 1;
      }
      assert msgLen[..i + 1][..i] == msgLen[..i];
    }
    assert msgLen[..msgLen.Length] == msgLen[..];
  }

  /** One iteration of the `mmsg_rx` loop: `recvmmsg` stores the lengths of the
      messages it received, a return of -1 counts one error, then the slot scan. */
  method RxBatchStep(t: ThdOpt, msgLen: array<nat>, call: MmsgCall)
    requires |call.lens| <= msgLen.Length
    modifies t, msgLen
    ensures State(t.Counts(), msgLen[..]) == RxBatch(State(old(t.Counts()), old(msgLen[..])), call)
    ensures t.started == old(t.started) && t.sock == old(t.sock)
  {
    StoreLengths(msgLen, 0, call.lens);
    var rxFrames := call.ret;
    if rxFrames == -1 {
      t.skErr := t.skErr + 1;
    }
    RxScan(t, msgLen);
  }

  /** The iov loop of `mmsg_rx`: every entry points at the shared receive buffer
      (offset 0) with room for one frame. */
  method FillRxIov(iov: array<IoVec>, frameSz: nat)
    modifies iov
    ensures forall i :: 0 <= i < iov.Length ==> iov[i] == IoVec(0, frameSz)
  {
    for i := 0 to iov.Length
      invariant forall j :: 0 <= j < i ==> iov[j] == IoVec(0, frameSz)
    {
      iov[i] := IoVec(0, frameSz);
    }
  }

  /** `mmsg_rx`: the worker is marked started, every entry of the vector receives
      into the one receive buffer with the full frame size, and the loop runs one
      batch per call. `iov[i]` gives each entry's offset in the receive buffer. */
  method MmsgRx(t: ThdOpt, calls: seq<MmsgCall>) returns (iov: array<IoVec>)
    requires forall k :: 0 <= k < |calls| ==> RxCallOk(t.msgvecVlen, calls[k])
    modifies t
    ensures fresh(iov) && iov.Length == t.msgvecVlen
    ensures forall i :: 0 <= i < iov.Length ==> iov[i] == IoVec(0, t.frameSz)
    ensures t.started && t.sock == old(t.sock)
    ensures t.Counts() == RxRun(State(old(t.Counts()), Zeros(t.msgvecVlen)), calls).counts
  {
    var vlen := t.msgvecVlen;
    var msgLen := new nat[vlen](_ => 0);
    iov := new IoVec[vlen](_ => IoVec(0, 0));
    assert msgLen[..] == Zeros(vlen);
    t.started := true;
    FillRxIov(iov, t.frameSz);
    ghost var s0 := State(old(t.Counts()), Zeros(vlen));
    for k := 0 to |calls|
      invariant t.started && t.sock == old(t.sock)
      invariant forall i :: 0 <= i < iov.Length ==> iov[i] == IoVec(0, t.frameSz)
      invariant State(t.Counts(), msgLen[..]) == RxRun(s0, calls[..k])
    {
      RxBatchStep(t, msgLen, calls[k]);
      assert calls[..k + 1][..k] == calls[..k];
    }
    assert calls[..|calls|] == calls;
  }

  /** The byte count of a successful `sendmmsg`: the `msg_len` of the first `msglen`
      entries of the vector. */
  method TxCountBytes(t: ThdOpt, msgLen: array<nat>, msglen: nat)
    requires msglen <= msgLen.Length
    modifies t
    ensures t.Counts() == old(t.Counts()).(txBytes := old(t.txBytes) + Sum(msgLen[..msglen]))
    ensures t.started == old(t.started) && t.sock == old(t.sock)
  {
    for i := 0 to msglen
      invariant t.started == old(t.started) && t.sock == old(t.sock)
      invariant t.Counts() == old(t.Counts()).(txBytes := old(t.txBytes) + Sum(msgLen[..i]))
    {
      t.txBytes := t.txBytes + msgLen[i];
      assert msgLen[..i + 1][..i] == msgLen[..i];
    }
  }

  /** The `sendmmsg` call and the accounting of one iteration of `mmsg_tx`, on the
      window `w` the scheduler picked. */
  method TxBatchStep(t: ThdOpt, msgLen: array<nat>, w: Window, call: MmsgCall)
    requires w.off + w.cnt <= msgLen.Length && TxCallOk(w, call)
    modifies t, msgLen
    ensures State(t.Counts(), msgLen[..]) == TxBatch(State(old(t.Counts()), old(msgLen[..])), w, call)
    ensures t.started == old(t.started) && t.sock == old(t.sock)
  {
    StoreLengths(msgLen, w.off, call.lens);
    var txFrames := call.ret;
    if txFrames == -1 {
      t.skErr := t.skErr + 1;
    } else {
      TxCountBytes(t, msgLen, w.cnt);
      t.txFrms := t.txFrms + txFrames;
    }
  }

  /** The window computation at the top of each `mmsg_tx` iteration: the request for
      `index` and the index of the next call. */
  method NextWindow(vlen: nat, loopCnt: nat, lastCnts: nat, index: nat) returns (w: Window, next: nat)
    requires loopCnt == LoopCnt(vlen) && lastCnts == LastCnts(vlen) && index <= loopCnt
    ensures w == WindowAt(vlen, index) && next == NextIndex(vlen, index)
  {
    var off := index * Batch;
    var msglen := Batch;
    next := index + 1;
    if index >= loopCnt {
      msglen := lastCnts;
      next := 0;
    }
    w := Window(off, msglen);
  }

  /** The set-up of `loop_cnt` and `last_cnts` before the `mmsg_tx` loop. */
  method LoopCounts(vlen: nat) returns (loopCnt: nat, lastCnts: nat)
    ensures loopCnt == LoopCnt(vlen) && lastCnts == LastCnts(vlen)
  {
    loopCnt, lastCnts := 0, 0;
    if vlen > Batch {
      lastCnts := vlen % Batch;
      loopCnt := vlen / Batch;
    }
  }

  /** One iteration of the `mmsg_tx` loop: picks the window at `index`, advances or
      wraps `index`, sends the window and accounts for the call. */
  method TxIteration(t: ThdOpt, msgLen: array<nat>, loopCnt: nat, lastCnts: nat, index: nat, call: MmsgCall)
    returns (w: Window, next: nat)
    requires msgLen.Length == t.msgvecVlen
    requires loopCnt == LoopCnt(t.msgvecVlen) && lastCnts == LastCnts(t.msgvecVlen) && index <= loopCnt
    requires TxCallOk(WindowAt(t.msgvecVlen, index), call)
    modifies t, msgLen
    ensures w == WindowAt(t.msgvecVlen, index) && next == NextIndex(t.msgvecVlen, index)
    ensures State(t.Counts(), msgLen[..]) == TxBatch(State(old(t.Counts()), old(msgLen[..])), w, call)
    ensures t.started == old(t.started) && t.sock == old(t.sock)
  {
    w, next := NextWindow(t.msgvecVlen, loopCnt, lastCnts, index);
    TxBatchStep(t, msgLen, w, call);
  }

  /** The `while(1)` loop of `mmsg_tx`: per call, the window at `index` is picked and
      `index` advanced or wrapped, then the window is sent and accounted for.
      `requests` lists the windows handed to `sendmmsg`. */
  method TxSendLoop(t: ThdOpt, msgLen: array<nat>, calls: seq<MmsgCall>) returns (requests: seq<Window>)
    requires msgLen.Length == t.msgvecVlen && TxCallsOk(t.msgvecVlen, calls)
    modifies t, msgLen
    ensures requests == Requests(t.msgvecVlen, |calls|)
    ensures State(t.Counts(), msgLen[..]) == TxRun(State(old(t.Counts()), old(msgLen[..])), calls, |calls|)
    ensures t.started == old(t.started) && t.sock == old(t.sock)
  {
    var vlen := t.msgvecVlen;
    var loopCnt, lastCnts := LoopCounts(vlen);
    var index := 0;
    requests := [];
    ghost var s0 := State(old(t.Counts()), old(msgLen[..]));
    for k := 0 to |calls|
      invariant index == IndexBefore(vlen, k)
      invariant requests == Requests(vlen, k)
      invariant t.started == old(t.started) && t.sock == old(t.sock)
      invariant State(t.Counts(), msgLen[..]) == TxRun(s0, calls, k)
    {
      assert TxCallOk(WindowAt(vlen, index), calls[k]);
      var w;
      w, index := TxIteration(t, msgLen, loopCnt, lastCnts, index, calls[k]);
      RequestsStep(vlen, k);
      requests := requests + [w];
    }
  }

  /** `mmsg_tx`: when the arena allocation succeeds (`arenaOk`), marks the worker
      started, builds one frame per vector entry into the arena, then sends windows
      of the vector, one per call. `requests` lists the windows handed to `sendmmsg`.
      `mac`, `ip` and `ids` stand for the interface addresses and the values of `rand()`. */
  method MmsgTx(t: ThdOpt, mac: seq<uint8>, ip: uint32, ids: seq<uint16>, arenaOk: bool,
                calls: seq<MmsgCall>) returns (requests: seq<Window>)
    requires |mac| == 6 && |ids| == t.msgvecVlen && t.frameSz >= HeaderLen
    requires TxCallsOk(t.msgvecVlen, calls)
    modifies t
    ensures t.sock == old(t.sock)
    ensures !arenaOk ==> requests == [] && t.Counts() == old(t.Counts()) && t.started == old(t.started)
    ensures arenaOk ==> t.started && requests == Requests(t.msgvecVlen, |calls|)
    ensures arenaOk ==> t.Counts() == TxRun(State(old(t.Counts()), Zeros(t.msgvecVlen)), calls, |calls|).counts
  {
    var vlen := t.msgvecVlen;
    var msgLen := new nat[vlen](_ => 0);
    var iov := new IoVec[vlen](_ => IoVec(0, 0));
    assert msgLen[..] == Zeros(vlen);
    if !arenaOk {
      return [];
    }
    var arena := new uint8[vlen * t.frameSz];
    t.started := true;
    BuildSlots(arena, iov, vlen, t.frameSz, t.threadNum, mac, ip, ids);
    requests := TxSendLoop(t, msgLen, calls);
  }

  // ---------------------------------------------------------------------------
  // Configuration and dispatch.

  /** `mmsg_sock`: the configuration steps in order with early returns, ending with
      QLEN; `calls` lists the steps issued. */
  method MmsgSock(t: ThdOpt, result: Op -> int) returns (status: int, calls: seq<Op>)
    modifies t
    ensures t.sock == result(Create)
    ensures status == Status(Plan(t.skMode, t.thdNr, true), result)
    ensures calls == Attempted(Plan(t.skMode, t.thdNr, true), result)
    ensures t.Counts() == old(t.Counts()) && t.started == old(t.started)
  {
    ghost var plan := Plan(t.skMode, t.thdNr, true);
    var ok;
    ok, calls := SharedSteps(t, result, true);
    if !ok {
      return ExitFailure, calls;
    }
    if t.thdNr > 1 {
      if result(Fanout) < 0 {
        Stop(plan, calls, Fanout, [Qlen], result);
        return ExitFailure, calls + [Fanout];
      }
      Pass(plan, calls, Fanout, [Qlen], result);
      calls := calls + [Fanout];
    } else {
      assert AfterTs(t.thdNr, true) == [Qlen];
    }
    if result(Qlen) == -1 {
      Stop(plan, calls, Qlen, [], result);
      return ExitFailure, calls + [Qlen];
    }
    Pass(plan, calls, Qlen, [], result);
    calls := calls + [Qlen];
    Finish(plan, calls, result);
    return ExitSuccess, calls;
  }

  /** `mmsg_init`: configures the socket and enters no loop when that fails, the
      receive loop in receive mode and the transmit loop in transmit mode. */
  method MmsgInit(t: ThdOpt, result: Op -> int, mac: seq<uint8>, ip: uint32, ids: seq<uint16>,
                  arenaOk: bool, calls: seq<MmsgCall>) returns (entered: Loop)
    requires t.skMode == Rx ==> forall k :: 0 <= k < |calls| ==> RxCallOk(t.msgvecVlen, calls[k])
    requires t.skMode == Tx ==> |mac| == 6 && |ids| == t.msgvecVlen && t.frameSz >= HeaderLen
    requires t.skMode == Tx ==> TxCallsOk(t.msgvecVlen, calls)
    modifies t
    ensures var status := Status(Plan(t.skMode, t.thdNr, true), result);
      entered == (if status != ExitSuccess then NoLoop else if t.skMode == Rx then RxLoop else TxLoop)
    ensures entered == NoLoop ==> t.Counts() == old(t.Counts()) && t.started == old(t.started)
    ensures entered == RxLoop ==> t.Counts() == RxRun(State(old(t.Counts()), Zeros(t.msgvecVlen)), calls).counts
    ensures entered == TxLoop && arenaOk ==> t.Counts() == TxRun(State(old(t.Counts()), Zeros(t.msgvecVlen)), calls, |calls|).counts
    ensures entered == TxLoop && !arenaOk ==> t.Counts() == old(t.Counts()) && t.started == old(t.started)
    ensures entered == RxLoop || (entered == TxLoop && arenaOk) ==> t.started
    ensures t.sock == result(Create)
  {
    var status, _ := MmsgSock(t, result);
    if status != ExitSuccess {
      return NoLoop;
    }
    if t.skMode == Rx {
      var _ := MmsgRx(t, calls);
      entered := RxLoop;
    } else {
      var _ := MmsgTx(t, mac, ip, ids, arenaOk, calls);
      entered := TxLoop;
    }
  }
}
