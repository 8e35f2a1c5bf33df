/**
 * The order of the socket configuration steps of `mmsg_sock`
 * (src/packet_mmsg.c) and `msg_sock` (src/packet_msg.c), over abstract
 * operations whose results the kernel decides. Each step is a call whose
 * integer result is supplied by an oracle `result: Op -> int`.
 */
module SockSetup {
  import opened Worker

  const ExitSuccess := 0
  const ExitFailure := 1

  /** `socket(AF_PACKET, SOCK_RAW, ...)` and the `sock_op` requests `S_O_*`. */
  datatype Op = Create | Bind | Qdisc | Lossy | Ts | Fanout | Qlen

  /** Whether result `r` of step `op` ends the configuration with `EXIT_FAILURE`:
      the fanout join fails on any negative result, the timestamp step never
      stops the sequence, and every other step fails on -1. */
  predicate Fatal(op: Op, r: int)
  {
    match op
    case Ts => false
    case Fanout => r < 0
    case _ => r == -1
  }

  /** The steps attempted when none fails: create, BIND, QDISC, LOSSY in transmit
      mode only, TS, FANOUT only with more than one worker thread, and QLEN when
      the engine has that step (the batched one does, the single-message one does not). */
  function Plan(mode: Mode, thdNr: nat, withQlen: bool): seq<Op>
  {
    [Create, Bind, Qdisc] + (if mode == Tx then [Lossy] else []) + [Ts]
    + (if thdNr > 1 then [Fanout] else []) + (if withQlen then [Qlen] else [])
  }

  /** The steps actually issued: the plan up to and including its first fatal failure. */
  function Attempted(plan: seq<Op>, result: Op -> int): seq<Op>
  {
    if plan == [] then []
    else if Fatal(plan[0], result(plan[0])) then [plan[0]]
    else [plan[0]] + Attempted(plan[1..], result)
  }

  /** The status the configuration returns. */
  function Status(plan: seq<Op>, result: Op -> int): int
  {
    if plan == [] then ExitSuccess
    else if Fatal(plan[0], result(plan[0])) then ExitFailure
    else Status(plan[1..], result)
  }

  /** Configuration succeeds exactly when no step of the plan fails fatally, and
      then every step of the plan is issued. */
  lemma {:induction false} SucceedsIff(plan: seq<Op>, result: Op -> int)
    ensures Status(plan, result) == ExitSuccess <==> forall i :: 0 <= i < |plan| ==> !Fatal(plan[i], result(plan[i]))
    ensures Status(plan, result) == ExitSuccess ==> Attempted(plan, result) == plan
  {
    if plan != [] {
      SucceedsIff(plan[1..], result);
      if !Fatal(plan[0], result(plan[0])) {
        assert forall i :: 1 <= i < |plan| ==> plan[i] == plan[1..][i - 1];
      }
    }
  }

  /** A failed configuration issues a prefix of the plan whose last step is the
      first fatal failure: no later step runs. */
  lemma {:induction false} FailureStopsAtFirstFatal(plan: seq<Op>, result: Op -> int)
    requires Status(plan, result) == ExitFailure
    ensures var a := Attempted(plan, result);
      0 < |a| <= |plan| && a == plan[..|a|]
      && Fatal(a[|a| - 1], result(a[|a| - 1]))
      && forall i :: 0 <= i < |a| - 1 ==> !Fatal(a[i], result(a[i]))
  {
    if !Fatal(plan[0], result(plan[0])) {
      FailureStopsAtFirstFatal(plan[1..], result);
      var a' := Attempted(plan[1..], result);
      assert Attempted(plan, result) == [plan[0]] + a';
      assert plan[..|a'| + 1] == [plan[0]] + plan[1..][..|a'|];
    }
  }

  /** The timestamp step's result never changes the outcome: two kernels that agree
      on every other step give the same status and issue the same steps. */
  lemma {:induction false} TimestampNeverFatal(plan: seq<Op>, r1: Op -> int, r2: Op -> int)
    requires forall op :: op != Ts ==> r1(op) == r2(op)
    ensures Status(plan, r1) == Status(plan, r2)
    ensures Attempted(plan, r1) == Attempted(plan, r2)
  {
    if plan != [] {
      TimestampNeverFatal(plan[1..], r1, r2);
    }
  }

  /** The shape of the plan: the three mandatory steps come first in order; LOSSY is
      planned exactly in transmit mode, FANOUT exactly with several threads, QLEN
      exactly in the batched engine, always last when present. */
  lemma PlanShape(mode: Mode, thdNr: nat, withQlen: bool)
    ensures var p := Plan(mode, thdNr, withQlen);
      p[..3] == [Create, Bind, Qdisc] && Ts in p
      && (Lossy in p <==> mode == Tx)
      && (Fanout in p <==> thdNr > 1)
      && (Qlen in p <==> withQlen)
      && (withQlen ==> p[|p| - 1] == Qlen)
  {
    var p := Plan(mode, thdNr, withQlen);
    assert p[3] == (if mode == Tx then Lossy else Ts);
  }

  /** The plan after the timestamp step. */
  function AfterTs(thdNr: nat, withQlen: bool): seq<Op>
  {
    (if thdNr > 1 then [Fanout] else []) + (if withQlen then [Qlen] else [])
  }

  /** The plan after the three mandatory steps. */
  function AfterQdisc(mode: Mode, thdNr: nat, withQlen: bool): seq<Op>
  {
    (if mode == Tx then [Lossy] else []) + ([Ts] + AfterTs(thdNr, withQlen))
  }

  lemma PlanSplits(mode: Mode, thdNr: nat, withQlen: bool)
    ensures Plan(mode, thdNr, withQlen) == [Create] + ([Bind] + ([Qdisc] + AfterQdisc(mode, thdNr, withQlen)))
  {
  }

  /** Bookkeeping for the straight-line setup code: the steps of `plan` issued so far
      are `issued`, and the outcome is decided by the steps `rest` still to come. */
  predicate Tracks(plan: seq<Op>, issued: seq<Op>, rest: seq<Op>, result: Op -> int)
  {
    Attempted(plan, result) == issued + Attempted(rest, result) && Status(plan, result) == Status(rest, result)
  }

  lemma Pass(plan: seq<Op>, issued: seq<Op>, op: Op, rest: seq<Op>, result: Op -> int)
    requires Tracks(plan, issued, [op] + rest, result) && !Fatal(op, result(op))
    ensures Tracks(plan, issued + [op], rest, result)
  {
    assert ([op] + rest)[1..] == rest;
  }

  lemma Stop(plan: seq<Op>, issued: seq<Op>, op: Op, rest: seq<Op>, result: Op -> int)
    requires Tracks(plan, issued, [op] + rest, result) && Fatal(op, result(op))
    ensures Attempted(plan, result) == issued + [op] && Status(plan, result) == ExitFailure
  {
  }

  lemma Start(plan: seq<Op>, result: Op -> int)
    ensures Tracks(plan, [], plan, result)
  {
    assert [] + Attempted(plan, result) == Attempted(plan, result);
  }

  lemma Finish(plan: seq<Op>, issued: seq<Op>, result: Op -> int)
    requires Tracks(plan, issued, [], result)
    ensures Attempted(plan, result) == issued && Status(plan, result) == ExitSuccess
  {
    assert issued + [] == issued;
  }

  /** The steps `mmsg_sock` and `msg_sock` share, written the same way in both: create
      the socket, then BIND, QDISC, LOSSY in transmit mode and TS, returning at the
      first fatal failure. On success the rest of the plan is what follows TS. */
  method SharedSteps(t: ThdOpt, result: Op -> int, withQlen: bool) returns (ok: bool, calls: seq<Op>)
    modifies t
    ensures t.sock == result(Create)
    ensures var plan := Plan(t.skMode, t.thdNr, withQlen);
      if ok then Tracks(plan, calls, AfterTs(t.thdNr, withQlen), result)
      else Attempted(plan, result) == calls && Status(plan, result) == ExitFailure
    ensures t.Counts() == old(t.Counts()) && t.started == old(t.started)
  {
    ghost var plan := Plan(t.skMode, t.thdNr, withQlen);
    ghost var afterTs := AfterTs(t.thdNr, withQlen);
    ghost var afterQdisc := AfterQdisc(t.skMode, t.thdNr, withQlen);
    PlanSplits(t.skMode, t.thdNr, withQlen);
    Start(plan, result);
    t.sock := result(Create);
    calls := [Create];
    if t.sock == -1 {
      Stop(plan, [], Create, [Bind] + ([Qdisc] + afterQdisc), result);
      return false, calls;
    }
    Pass(plan, [], Create, [Bind] + ([Qdisc] + afterQdisc), result);
    if result(Bind) == -1 {
      Stop(plan, calls, Bind, [Qdisc] + afterQdisc, result);
      return false, calls + [Bind];
    }
    Pass(plan, calls, Bind, [Qdisc] + afterQdisc, result);
    calls := calls + [Bind];
    if result(Qdisc) == -1 {
      Stop(plan, calls, Qdisc, afterQdisc, result);
      return false, calls + [Qdisc];
    }
    Pass(plan, calls, Qdisc, afterQdisc, result);
    calls := calls + [Qdisc];
    if t.skMode == Tx {
      if result(Lossy) == -1 {
        Stop(plan, calls, Lossy, [Ts] + afterTs, result);
        return false, calls + [Lossy];
      }
      Pass(plan, calls, Lossy, [Ts] + afterTs, result);
      calls := calls + [Lossy];
    } else {
      assert afterQdisc == [Ts] + afterTs;
    }
    Pass(plan, calls, Ts, afterTs, result);
    calls := calls + [Ts];
    ok := true;
  }
}
