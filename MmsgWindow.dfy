/**
 * The window scheduler of `mmsg_tx` (src/packet_mmsg.c): the message vector of
 * `msgvec_vlen` entries is handed to `sendmmsg` in windows of at most 1024
 * entries, round robin. Only `index` changes from call to call.
 */
module MmsgWindow {

  const Batch := 1024

  /** One `sendmmsg` request: the window starts at entry `off` of the vector and
      holds `cnt` entries. */
  datatype Window = Window(off: nat, cnt: nat)

  /** `loop_cnt`: the number of full windows, left at 0 unless the vector is longer than 1024. */
  function LoopCnt(vlen: nat): nat
  {
    if vlen > Batch then vlen / Batch else 0
  }

  /** `last_cnts`: the size of the final partial window, left at 0 unless the vector
      is longer than 1024. */
  function LastCnts(vlen: nat): nat
  {
    if vlen > Batch then vlen % Batch else 0
  }

  /** The request made when `index` is `idx`; every such request lies inside the vector. */
  function WindowAt(vlen: nat, idx: nat): (w: Window)
    requires idx <= LoopCnt(vlen)
    ensures w.off + w.cnt <= vlen
  {
    assert vlen > Batch ==> vlen == LoopCnt(vlen) * Batch + LastCnts(vlen);
    Window(idx * Batch, if idx >= LoopCnt(vlen) then LastCnts(vlen) else Batch)
  }

  /** The value of `index` after a request made with `index == idx`. */
  function NextIndex(vlen: nat, idx: nat): nat
  {
    if idx >= LoopCnt(vlen) then 0 else idx + 1
  }

  /** The value of `index` before call number `k` (counting from 0), as the
      statements of the loop leave it. */
  function IndexBefore(vlen: nat, k: nat): (idx: nat)
    ensures idx <= LoopCnt(vlen)
  {
    if k == 0 then 0 else NextIndex(vlen, IndexBefore(vlen, k - 1))
  }

  /** The requests of the first `n` calls. */
  function Requests(vlen: nat, n: nat): seq<Window>
  {
    seq(n, k requires 0 <= k < n => WindowAt(vlen, IndexBefore(vlen, k)))
  }

  /** The requests of one more call extend the list by that call's window. */
  lemma RequestsStep(vlen: nat, k: nat)
    ensures Requests(vlen, k + 1) == Requests(vlen, k) + [WindowAt(vlen, IndexBefore(vlen, k))]
  {
    assert forall i :: 0 <= i < k ==> Requests(vlen, k + 1)[i] == Requests(vlen, k)[i];
  }

  lemma MulStep(a: nat, b: nat, p: nat)
    requires a > b
    ensures a * p >= b * p + p
  {
    var d: nat := a - b - 1;
    assert a * p == b * p + p + d * p;
  }

  /** Euclidean division has one quotient and remainder. */
  lemma ModUnique(k: nat, p: nat, q: nat, r: nat)
    requires 0 <= r < p && k == q * p + r
    ensures k % p == r
  {
    var q', r' := k / p, k % p;
    assert k == q' * p + r';
    if q > q' {
      MulStep(q, q', p);
    } else if q < q' {
      MulStep(q', q, p);
    }
  }

  /** Counting on by one modulo `p`. */
  lemma CycleStep(k: nat, p: nat)
    requires p >= 1
    ensures (k + 1) % p == if k % p == p - 1 then 0 else k % p + 1
  {
    var q, r := k / p, k % p;
    assert k == q * p + r;
    if r == p - 1 {
      assert k + 1 == (q + 1) * p + 0;
      ModUnique(k + 1, p, q + 1, 0);
    } else {
      ModUnique(k + 1, p, q, r + 1);
    }
  }

  /** `index` cycles through 0, 1, ..., loop_cnt: before call `k` it is
      `k mod (loop_cnt + 1)`. */
  lemma {:induction false} IndexCycles(vlen: nat, k: nat)
    ensures IndexBefore(vlen, k) == k % (LoopCnt(vlen) + 1)
  {
    if k > 0 {
      IndexCycles(vlen, k - 1);
      CycleStep(k - 1, LoopCnt(vlen) + 1);
    }
  }

  /** With more than 1024 entries, one round of `loop_cnt + 1` calls requests the
      full windows at offsets 0, 1024, ... and then the remainder, tiling the vector
      exactly, and the next call starts the round again at offset 0. */
  lemma RoundTilesVector(vlen: nat, k: nat)
    requires vlen > Batch && k <= LoopCnt(vlen)
    ensures WindowAt(vlen, IndexBefore(vlen, k)).off == k * Batch
    ensures k < LoopCnt(vlen) ==> WindowAt(vlen, IndexBefore(vlen, k)).cnt == Batch
    ensures k == LoopCnt(vlen) ==> WindowAt(vlen, IndexBefore(vlen, k)).off + WindowAt(vlen, IndexBefore(vlen, k)).cnt == vlen
    ensures IndexBefore(vlen, LoopCnt(vlen) + 1) == 0
  {
    var p := LoopCnt(vlen) + 1;
    IndexCycles(vlen, k);
    ModUnique(k, p, 0, k);
    IndexCycles(vlen, p);
    ModUnique(p, p, 1, 0);
    assert vlen == LoopCnt(vlen) * Batch + LastCnts(vlen);
  }

  /** With at most 1024 entries every call asks `sendmmsg` for 0 messages at the
      start of the vector. */
  lemma ShortVectorRequestsNothing(vlen: nat, k: nat)
    requires vlen <= Batch
    ensures WindowAt(vlen, IndexBefore(vlen, k)) == Window(0, 0)
  {
    IndexCycles(vlen, k);
  }

  /** 2500 entries: windows of 1024, 1024 and 452, repeating. */
  lemma Requests2500()
    ensures Requests(2500, 6)
         == [Window(0, 1024), Window(1024, 1024), Window(2048, 452),
             Window(0, 1024), Window(1024, 1024), Window(2048, 452)]
  {
    assert LoopCnt(2500) == 2 && LastCnts(2500) == 452;
    assert IndexBefore(2500, 1) == 1;
    assert IndexBefore(2500, 2) == 2;
    assert IndexBefore(2500, 3) == 0;
    assert IndexBefore(2500, 4) == 1;
    assert IndexBefore(2500, 5) == 2;
  }

  /** 2048 entries: windows of 1024, 1024 and an empty one at offset 2048, repeating. */
  lemma Requests2048()
    ensures Requests(2048, 3) == [Window(0, 1024), Window(1024, 1024), Window(2048, 0)]
  {
    assert LoopCnt(2048) == 2 && LastCnts(2048) == 0;
    assert IndexBefore(2048, 1) == 1;
    assert IndexBefore(2048, 2) == 2;
  }
}
