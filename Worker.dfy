/**
 * The per-thread worker context `struct thd_opt` that both I/O engines
 * (src/packet_mmsg.c and src/packet_msg.c) read their configuration from and
 * write their socket handle and output counters into.
 */
module Worker {

  /** `sk_mode`: the direction the worker runs in (`SKT_RX` or `SKT_TX`). */
  datatype Mode = Rx | Tx

  /** Which I/O loop a worker thread enters after configuring its socket, if any. */
  datatype Loop = NoLoop | RxLoop | TxLoop

  /** The output counters of a worker: I/O errors, received and transmitted bytes and frames. */
  datatype Counters = Counters(skErr: nat, rxBytes: nat, rxFrms: nat, txBytes: nat, txFrms: nat)

  /** No counter of `c` is larger than the same counter of `c'`. */
  predicate NoneDecreased(c: Counters, c': Counters)
  {
    c.skErr <= c'.skErr && c.rxBytes <= c'.rxBytes && c.rxFrms <= c'.rxFrms
    && c.txBytes <= c'.txBytes && c.txFrms <= c'.txFrms
  }

  const Zero := Counters(0, 0, 0, 0, 0)

  /** `struct thd_opt`, as far as the two engines use it: the configuration the
      orchestrator sets before the thread starts, and the socket, the `started`
      flag and the counters the thread updates in place. */
  class ThdOpt {
    const skMode: Mode
    const thdNr: nat        // number of sibling worker threads
    const threadNum: nat    // this worker's index
    const msgvecVlen: nat   // batch depth of the message vector
    const frameSz: nat      // bytes per frame

    var sock: int
    var started: bool
    var skErr: nat
    var rxBytes: nat
    var rxFrms: nat
    var txBytes: nat
    var txFrms: nat

    constructor(skMode: Mode, thdNr: nat, threadNum: nat, msgvecVlen: nat, frameSz: nat)
      ensures this.skMode == skMode && this.thdNr == thdNr && this.threadNum == threadNum
      ensures this.msgvecVlen == msgvecVlen && this.frameSz == frameSz
      ensures Counts() == Zero && !started
    {
      this.skMode := skMode;
      this.thdNr := thdNr;
      this.threadNum := threadNum;
      this.msgvecVlen := msgvecVlen;
      this.frameSz := frameSz;
      sock := -1;
      started := false;
      skErr, rxBytes, rxFrms, txBytes, txFrms := 0, 0, 0, 0, 0;
    }

    /** The counters as one value, the snapshot an aggregating reporter reads. */
    function Counts(): Counters
      reads this
    {
      Counters(skErr, rxBytes, rxFrms, txBytes, txFrms)
    }
  }
}
