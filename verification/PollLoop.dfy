/**
 The poll loop `VectorCom._run`, one iteration at a time and with everything it observes (clock,
 arrivals, response variables) as input: timeouts, late answers and response-pendings included.
 */
module PollLoop {
  import opened Base
  import opened Bridge
  import opened Capl

  /** The command awaiting a response, and when it was sent. */
  datatype Sent = Sent(id: int, kind: int, at: int)

  datatype Poll = Poll(
    cmdQ: seq<Cmd>,
    evtQ: seq<Evt>,
    lastRsp: int,
    outstanding: Option<Sent>,
    reqTrigger: int,
    // histories
    written: seq<Cmd>,          // the commands put into the request variables
    bumps: seq<nat>,            // how many events were queued when each was written
    observed: seq<Evt>,         // the responses picked up
    synthesized: seq<Evt>)      // the timeouts made up

  /** What one iteration meets: queued commands, the clock at its two readings, the response variables. */
  datatype Tick = Tick(arrivals: seq<Cmd>, sendTime: int, rspTrigger: int, rsp: Evt, checkTime: int)

  function TimeoutOf(s: Sent): Evt {
    Evt(s.id, STATUS_ERR_TIMEOUT, s.kind, [])
  }

  /** Push a pending command, but only if none is outstanding. */
  function Push(p: Poll, now: int): Poll {
    if p.outstanding.None? && p.cmdQ != [] then
      var c := p.cmdQ[0];
      p.(cmdQ := p.cmdQ[1..], outstanding := Some(Sent(c.id, c.kind, now)), reqTrigger := p.reqTrigger + 1,
         written := p.written + [c], bumps := p.bumps + [|p.evtQ|])
    else p
  }

  /** Detect a new response, or give up on the outstanding command. */
  function Detect(p: Poll, t: Tick, timeout: nat): Poll {
    if t.rspTrigger != p.lastRsp then
      p.(lastRsp := t.rspTrigger, outstanding := None, evtQ := p.evtQ + [t.rsp], observed := p.observed + [t.rsp])
    else if p.outstanding.Some? && t.checkTime - p.outstanding.value.at > timeout then
      var v := TimeoutOf(p.outstanding.value);
      p.(outstanding := None, evtQ := p.evtQ + [v], synthesized := p.synthesized + [v])
    else p
  }

  function Iterate(p: Poll, t: Tick, timeout: nat): Poll {
    Detect(Push(p.(cmdQ := p.cmdQ + t.arrivals), t.sendTime), t, timeout)
  }

  function Run(p: Poll, ticks: seq<Tick>, timeout: nat): Poll
    decreases |ticks|
  {
    if ticks == [] then p else Run(Iterate(p, ticks[0], timeout), ticks[1..], timeout)
  }

  // ---------------------------------------------------------------- the class

  class VectorCom {
    const vars: DiagVars
    const cmdTimeout: nat
    var cmdQ: seq<Cmd>
    var evtQ: seq<Evt>
    var lastRsp: int
    var outstanding: Option<Sent>
    ghost var written: seq<Cmd>
    ghost var bumps: seq<nat>
    ghost var observed: seq<Evt>
    ghost var synthesized: seq<Evt>

    ghost function State(): Poll
      reads this, vars
    {
      Poll(cmdQ, evtQ, lastRsp, outstanding, vars.reqTrigger, written, bumps, observed, synthesized)
    }

    constructor (vars: DiagVars, cmdTimeout: nat)
      ensures this.vars == vars && this.cmdTimeout == cmdTimeout
      ensures State() == Poll([], [], vars.rspTrigger, None, vars.reqTrigger, [], [], [], [])
    {
      this.vars, this.cmdTimeout := vars, cmdTimeout;
      cmdQ, evtQ, lastRsp, outstanding := [], [], vars.rspTrigger, None;
      written, bumps, observed, synthesized := [], [], [], [];
    }

    /** The request variables hold the command whole before the trigger fires. */
    method PushCommand(now: int)
      modifies this`cmdQ, this`outstanding, this`written, this`bumps,
               vars`reqData, vars`reqSeq, vars`reqKind, vars`reqArg, vars`reqTrigger
      ensures State() == Push(old(State()), now)
      ensures written != old(written) ==>
                var c := old(cmdQ)[0];
                && vars.reqSeq == c.id && vars.reqKind == c.kind && vars.reqArg == c.arg
                && (c.data.Some? ==> vars.reqData == c.data.value)
    {
      if outstanding.None? && cmdQ != [] {
        var c := cmdQ[0];
        cmdQ := cmdQ[1..];
        if c.data.Some? {
          vars.reqData := c.data.value;
        }
        vars.reqSeq := c.id;
        vars.reqKind := c.kind;
        vars.reqArg := c.arg;
        vars.reqTrigger := vars.reqTrigger + 1;
        outstanding := Some(Sent(c.id, c.kind, now));
        written, bumps := written + [c], bumps + [|evtQ|];
      }
    }

    method PollOnce(t: Tick)
      modifies this, vars`reqData, vars`reqSeq, vars`reqKind, vars`reqArg, vars`reqTrigger
      ensures State() == Iterate(old(State()), t, cmdTimeout)
    {
      cmdQ := cmdQ + t.arrivals;
      PushCommand(t.sendTime);
      if t.rspTrigger != lastRsp {
        lastRsp := t.rspTrigger;
        outstanding := None;
        evtQ := evtQ + [t.rsp];
        observed := observed + [t.rsp];
      } else if outstanding.Some? && t.checkTime - outstanding.value.at > cmdTimeout {
        var v := TimeoutOf(outstanding.value);
        evtQ := evtQ + [v];
        outstanding := None;
        synthesized := synthesized + [v];
      }
    }

    method Loop(ticks: seq<Tick>)
      modifies this, vars`reqData, vars`reqSeq, vars`reqKind, vars`reqArg, vars`reqTrigger
      ensures State() == Run(old(State()), ticks, cmdTimeout)
    {
      var i := 0;
      while i < |ticks|
        invariant 0 <= i <= |ticks|
        invariant Run(State(), ticks[i..], cmdTimeout) == Run(old(State()), ticks, cmdTimeout)
      {
        assert ticks[i..][1..] == ticks[i + 1..];
        PollOnce(ticks[i]);
        i := i + 1;
      }
    }
  }

  // ---------------------------------------------------------------- conservation

  function Arrivals(ticks: seq<Tick>): seq<Cmd> {
    if ticks == [] then [] else ticks[0].arrivals + Arrivals(ticks[1..])
  }

  /** The responses behind the trigger changes a polling reader sees, given the value it saw before. */
  function Changes(last: int, ticks: seq<Tick>): seq<Evt>
    decreases |ticks|
  {
    if ticks == [] then []
    else
      (if ticks[0].rspTrigger != last then [ticks[0].rsp] else []) + Changes(ticks[0].rspTrigger, ticks[1..])
  }

  /** What holds between iterations. */
  predicate Consistent(p: Poll) {
    && |p.bumps| == |p.written|
    && (forall i, j :: 0 <= i < j < |p.bumps| ==> p.bumps[i] < p.bumps[j])
    && (forall i :: 0 <= i < |p.bumps| ==> p.bumps[i] <= |p.evtQ|)
    && (p.outstanding.None? ==> forall i :: 0 <= i < |p.bumps| ==> p.bumps[i] < |p.evtQ|)
    && (p.outstanding.Some? ==>
          && p.written != []
          && p.bumps[|p.bumps| - 1] == |p.evtQ|
          && p.outstanding.value.id == p.written[|p.written| - 1].id
          && p.outstanding.value.kind == p.written[|p.written| - 1].kind)
    && |p.evtQ| == |p.observed| + |p.synthesized|
    && multiset(p.evtQ) == multiset(p.observed) + multiset(p.synthesized)
    && (forall i :: 0 <= i < |p.synthesized| ==> IsTimeoutOf(p.synthesized[i], p.written))
  }

  predicate IsTimeoutOf(v: Evt, written: seq<Cmd>) {
    exists k :: 0 <= k < |written| && v == Evt(written[k].id, STATUS_ERR_TIMEOUT, written[k].kind, [])
  }

  lemma PushIsConsistent(p: Poll, now: int)
    requires Consistent(p)
    ensures Consistent(Push(p, now))
  {
    var q := Push(p, now);
    forall i | 0 <= i < |q.synthesized|
      ensures IsTimeoutOf(q.synthesized[i], q.written)
    {
      assert IsTimeoutOf(p.synthesized[i], p.written);
      var k :| 0 <= k < |p.written|
               && p.synthesized[i] == Evt(p.written[k].id, STATUS_ERR_TIMEOUT, p.written[k].kind, []);
      assert q.written[k] == p.written[k];
    }
  }

  lemma DetectIsConsistent(p: Poll, t: Tick, timeout: nat)
    requires Consistent(p)
    ensures Consistent(Detect(p, t, timeout))
  {
    if t.rspTrigger == p.lastRsp && p.outstanding.Some? {
      var k := |p.written| - 1;
      assert IsTimeoutOf(TimeoutOf(p.outstanding.value), p.written) by {
        assert TimeoutOf(p.outstanding.value) == Evt(p.written[k].id, STATUS_ERR_TIMEOUT, p.written[k].kind, []);
      }
    }
  }

  /** One iteration moves at most one command, and picks up exactly the change it sees. */
  lemma IterateBalance(p: Poll, t: Tick, timeout: nat)
    ensures var q := Iterate(p, t, timeout);
            && q.written + q.cmdQ == p.written + p.cmdQ + t.arrivals
            && q.reqTrigger - |q.written| == p.reqTrigger - |p.written|
            && q.lastRsp == t.rspTrigger
            && q.observed == p.observed + if t.rspTrigger != p.lastRsp then [t.rsp] else []
  {}

  lemma IterateIsConsistent(p: Poll, t: Tick, timeout: nat)
    requires Consistent(p)
    ensures Consistent(Iterate(p, t, timeout))
  {
    var queued := p.(cmdQ := p.cmdQ + t.arrivals);
    assert Consistent(queued);
    PushIsConsistent(queued, t.sendTime);
    DetectIsConsistent(Push(queued, t.sendTime), t, timeout);
  }

  lemma {:induction false} RunIsConsistent(p: Poll, ticks: seq<Tick>, timeout: nat)
    requires Consistent(p)
    ensures Consistent(Run(p, ticks, timeout))
    decreases |ticks|
  {
    if ticks != [] {
      IterateIsConsistent(p, ticks[0], timeout);
      RunIsConsistent(Iterate(p, ticks[0], timeout), ticks[1..], timeout);
    }
  }

  lemma {:induction false} RunBalance(p: Poll, ticks: seq<Tick>, timeout: nat)
    ensures var q := Run(p, ticks, timeout);
            && q.written + q.cmdQ == p.written + p.cmdQ + Arrivals(ticks)
            && q.reqTrigger - |q.written| == p.reqTrigger - |p.written|
    decreases |ticks|
  {
    if ticks == [] {
      assert p.written + p.cmdQ + [] == p.written + p.cmdQ;
    } else {
      var t, w := ticks[0], p.written + p.cmdQ;
      IterateBalance(p, t, timeout);
      RunBalance(Iterate(p, t, timeout), ticks[1..], timeout);
      assert w + t.arrivals + Arrivals(ticks[1..]) == w + Arrivals(ticks);
    }
  }

  lemma {:induction false} RunObserves(p: Poll, ticks: seq<Tick>, timeout: nat)
    ensures Run(p, ticks, timeout).observed == p.observed + Changes(p.lastRsp, ticks)
    decreases |ticks|
  {
    if ticks != [] {
      IterateBalance(p, ticks[0], timeout);
      RunObserves(Iterate(p, ticks[0], timeout), ticks[1..], timeout);
    }
  }

  /**
   In every run: the trigger was bumped once per command written; commands are written in the order they
   were queued and none is lost; an event is queued between any two bumps; and the events are exactly
   the observed trigger changes plus the synthesized timeouts, each of a written command.
   */
  lemma Conservation(p: Poll, ticks: seq<Tick>, timeout: nat)
    requires Consistent(p)
    ensures var q := Run(p, ticks, timeout);
            && q.reqTrigger - p.reqTrigger == |q.written| - |p.written|
            && q.written + q.cmdQ == p.written + p.cmdQ + Arrivals(ticks)
            && |q.bumps| == |q.written|
            && (forall i, j :: 0 <= i < j < |q.bumps| ==> q.bumps[i] < q.bumps[j])
            && q.observed == p.observed + Changes(p.lastRsp, ticks)
            && |q.evtQ| == |q.observed| + |q.synthesized|
            && multiset(q.evtQ) == multiset(q.observed) + multiset(q.synthesized)
            && (forall i :: 0 <= i < |q.synthesized| ==> IsTimeoutOf(q.synthesized[i], q.written))
  {
    RunIsConsistent(p, ticks, timeout);
    RunBalance(p, ticks, timeout);
    RunObserves(p, ticks, timeout);
  }

  // ---------------------------------------------------------------- draining

  /** Every iteration advances the clock by at least `e`. */
  predicate Clocked(ticks: seq<Tick>, e: nat) {
    && (forall i :: 0 <= i < |ticks| ==> ticks[i].sendTime <= ticks[i].checkTime)
    && (forall i :: 0 <= i < |ticks| - 1 ==> ticks[i].sendTime + e <= ticks[i + 1].sendTime)
  }

  /** The iterations one command can take. */
  function Budget(timeout: nat, e: nat): nat
    requires e > 0
  {
    timeout / e + 2
  }

  lemma ClockedTail(ticks: seq<Tick>, e: nat)
    requires Clocked(ticks, e) && ticks != []
    ensures Clocked(ticks[1..], e)
  {
    var rest := ticks[1..];
    forall i | 0 <= i < |rest| - 1
      ensures rest[i].sendTime + e <= rest[i + 1].sendTime
    {
      assert rest[i] == ticks[i + 1] && rest[i + 1] == ticks[i + 2];
    }
  }

  lemma {:induction false} ClockedDrop(ticks: seq<Tick>, e: nat, m: nat)
    requires Clocked(ticks, e) && m <= |ticks|
    ensures Clocked(ticks[m..], e)
    decreases m
  {
    if m > 0 {
      ClockedTail(ticks, e);
      ClockedDrop(ticks[1..], e, m - 1);
      assert ticks[1..][m - 1..] == ticks[m..];
    } else {
      assert ticks[0..] == ticks;
    }
  }

  lemma {:induction false} RunSplit(p: Poll, ticks: seq<Tick>, m: nat, timeout: nat)
    requires m <= |ticks|
    ensures Run(p, ticks, timeout) == Run(Run(p, ticks[..m], timeout), ticks[m..], timeout)
    decreases m
  {
    if m > 0 {
      RunSplit(Iterate(p, ticks[0], timeout), ticks[1..], m - 1, timeout);
      assert ticks[..m][1..] == ticks[1..][..m - 1];
      assert ticks[1..][m - 1..] == ticks[m..];
    } else {
      assert ticks[0..] == ticks;
    }
  }

  lemma DivisionBound(n: nat, e: nat)
    requires e > 0
    ensures (n / e + 1) * e > n
  {
    assert n == n / e * e + n % e;
  }

  lemma TimesGrows(a: nat, b: nat, e: nat)
    requires a >= b
    ensures a * e >= b * e
  {
    assert a * e == b * e + (a - b) * e;
  }

  /** Past the timeout, `steps` iterations after the command was sent. */
  lemma BudgetSuffices(timeout: nat, e: nat, steps: nat, elapsed: int)
    requires e > 0 && steps >= timeout / e + 1 && elapsed >= steps * e
    ensures elapsed > timeout
  {
    var q := timeout / e;
    DivisionBound(timeout, e);
    TimesGrows(steps, q + 1, e);
  }

  /**
   With a command outstanding for `steps` iterations, the rest of its budget brings an event; until
   then nothing else is written.
   */
  lemma {:induction false} Wait(p: Poll, ticks: seq<Tick>, timeout: nat, e: nat, steps: nat) returns (m: nat)
    requires e > 0 && p.outstanding.Some? && Clocked(ticks, e)
    requires |ticks| + steps >= Budget(timeout, e)
    requires steps < Budget(timeout, e)
    requires ticks != [] ==> ticks[0].sendTime >= p.outstanding.value.at + steps * e
    ensures m <= |ticks| && m + steps <= Budget(timeout, e)
    ensures var q := Run(p, ticks[..m], timeout);
            && q.outstanding.None? && q.written == p.written && q.bumps == p.bumps && |q.evtQ| == |p.evtQ| + 1
            && q.cmdQ == p.cmdQ + Arrivals(ticks[..m])
    decreases |ticks|
  {
    hide Run, Arrivals, Iterate, Budget;
    BudgetIsPositive(timeout, e);
    BudgetBound(timeout, e);
    var t := ticks[0];
    var q := Iterate(p, t, timeout);
    WaitingIteration(p, t, timeout);
    if q.outstanding.None? {
      m := 1;
      OneTick(p, ticks, timeout);
      assert t.arrivals + [] == t.arrivals;
    } else {
      if steps + 1 >= Budget(timeout, e) {
        BudgetSuffices(timeout, e, steps, t.checkTime - p.outstanding.value.at);
        assert false;
      }
      ClockedTail(ticks, e);
      if ticks[1..] != [] {
        SecondTick(ticks, e);
      }
      assert (steps + 1) * e == steps * e + e;
      var k := Wait(q, ticks[1..], timeout, e, steps + 1);
      m := k + 1;
      MoreTicks(p, ticks, k, timeout);
      assert p.cmdQ + (t.arrivals + Arrivals(ticks[1..][..k])) == p.cmdQ + t.arrivals + Arrivals(ticks[1..][..k]);
    }
  }

  lemma BudgetBound(timeout: nat, e: nat)
    requires e > 0
    ensures Budget(timeout, e) == timeout / e + 2
  {}

  /** While a command is outstanding nothing is written; the iteration brings an event or time goes on. */
  lemma WaitingIteration(p: Poll, t: Tick, timeout: nat)
    requires p.outstanding.Some?
    ensures var q := Iterate(p, t, timeout);
            && q.cmdQ == p.cmdQ + t.arrivals && q.written == p.written && q.bumps == p.bumps
            && (q.outstanding.None? ==> |q.evtQ| == |p.evtQ| + 1)
            && (q.outstanding.Some? ==>
                  q.outstanding == p.outstanding && q.evtQ == p.evtQ && t.checkTime - p.outstanding.value.at <= timeout)
  {}

  lemma OneTick(p: Poll, ticks: seq<Tick>, timeout: nat)
    requires ticks != []
    ensures Run(p, ticks[..1], timeout) == Iterate(p, ticks[0], timeout)
    ensures Arrivals(ticks[..1]) == ticks[0].arrivals
  {
    assert ticks[..1][1..] == [];
    assert ticks[0].arrivals + Arrivals([]) == ticks[0].arrivals;
  }

  lemma BudgetIsPositive(timeout: nat, e: nat)
    requires e > 0
    ensures Budget(timeout, e) >= 2
  {}

  lemma SecondTick(ticks: seq<Tick>, e: nat)
    requires Clocked(ticks, e) && |ticks| >= 2
    ensures ticks[1..][0].sendTime >= ticks[0].sendTime + 1 * e
  {
    assert ticks[0].sendTime + e <= ticks[0 + 1].sendTime;
  }

  lemma MoreTicks(p: Poll, ticks: seq<Tick>, k: nat, timeout: nat)
    requires k + 1 <= |ticks|
    ensures Run(p, ticks[..k + 1], timeout) == Run(Iterate(p, ticks[0], timeout), ticks[1..][..k], timeout)
    ensures Arrivals(ticks[..k + 1]) == ticks[0].arrivals + Arrivals(ticks[1..][..k])
  {
    hide Iterate;
    assert ticks[..k + 1][1..] == ticks[1..][..k];
  }

  /** From rest, the oldest queued command is written and answered within its budget. */
  lemma OneCommandDrains(p: Poll, ticks: seq<Tick>, timeout: nat, e: nat) returns (m: nat)
    requires e > 0 && p.outstanding.None? && p.cmdQ != [] && |p.bumps| == |p.written|
    requires Clocked(ticks, e) && |ticks| >= Budget(timeout, e)
    ensures 1 <= m <= Budget(timeout, e)
    ensures var q := Run(p, ticks[..m], timeout);
            && q.outstanding.None? && q.written == p.written + [p.cmdQ[0]]
            && q.bumps == p.bumps + [|p.evtQ|] && |q.evtQ| == |p.evtQ| + 1
            && q.cmdQ == p.cmdQ[1..] + Arrivals(ticks[..m])
  {
    hide Iterate, Run, Arrivals;
    var t := ticks[0];
    var q := Iterate(p, t, timeout);
    FirstIteration(p, t, timeout);
    BudgetIsPositive(timeout, e);
    if q.outstanding.None? {
      m := 1;
      OneTick(p, ticks, timeout);
    } else {
      ClockedTail(ticks, e);
      SecondTick(ticks, e);
      var k := Wait(q, ticks[1..], timeout, e, 1);
      m := k + 1;
      MoreTicks(p, ticks, k, timeout);
      assert p.cmdQ[1..] + (t.arrivals + Arrivals(ticks[1..][..k]))
          == p.cmdQ[1..] + t.arrivals + Arrivals(ticks[1..][..k]);
    }
  }

  lemma FirstIteration(p: Poll, t: Tick, timeout: nat)
    requires p.outstanding.None? && p.cmdQ != []
    ensures var q := Iterate(p, t, timeout);
            && q.written == p.written + [p.cmdQ[0]] && q.bumps == p.bumps + [|p.evtQ|]
            && q.cmdQ == p.cmdQ[1..] + t.arrivals
            && |q.evtQ| == |p.evtQ| + (if q.outstanding.None? then 1 else 0)
            && (q.outstanding.Some? ==> q.outstanding.value.at == t.sendTime)
  {
    assert (p.cmdQ + t.arrivals)[1..] == p.cmdQ[1..] + t.arrivals;
  }

  /** Histories and queued events only grow. */
  lemma {:induction false} RunExtends(p: Poll, ticks: seq<Tick>, timeout: nat)
    ensures var q := Run(p, ticks, timeout);
            p.written <= q.written && p.bumps <= q.bumps && |p.evtQ| <= |q.evtQ|
            && |q.bumps| - |p.bumps| == |q.written| - |p.written|
    decreases |ticks|
  {
    if ticks != [] {
      RunExtends(Iterate(p, ticks[0], timeout), ticks[1..], timeout);
    }
  }

  /**
   If every iteration advances the clock by at least `e`, then from rest the first `k` queued commands
   are all written, in order, and each is followed by an event, within `k * (timeout / e + 2)` iterations.
   */
  lemma {:induction false} DrainBound(p: Poll, ticks: seq<Tick>, timeout: nat, e: nat, k: nat)
    requires e > 0 && p.outstanding.None? && k <= |p.cmdQ| && |p.bumps| == |p.written|
    requires Clocked(ticks, e) && |ticks| >= k * Budget(timeout, e)
    ensures var q := Run(p, ticks, timeout);
            && p.written + p.cmdQ[..k] <= q.written
            && |p.bumps| + k <= |q.bumps|
            && forall i :: |p.bumps| <= i < |p.bumps| + k ==> q.bumps[i] < |q.evtQ|
    decreases k
  {
    hide Run, Iterate, Clocked, Budget, Arrivals;
    RunExtends(p, ticks, timeout);
    if k == 0 {
      assert p.written + p.cmdQ[..0] == p.written;
    } else {
      assert k * Budget(timeout, e) == (k - 1) * Budget(timeout, e) + Budget(timeout, e);
      assert (k - 1) * Budget(timeout, e) >= 0;
      var m := OneCommandDrains(p, ticks, timeout, e);
      var q := Run(p, ticks[..m], timeout);
      RunSplit(p, ticks, m, timeout);
      ClockedDrop(ticks, e, m);
      RunExtends(q, ticks[m..], timeout);
      DrainBound(q, ticks[m..], timeout, e, k - 1);
      assert q.cmdQ[..k - 1] == p.cmdQ[1..k];
      assert p.written + p.cmdQ[..k] == q.written + q.cmdQ[..k - 1];
    }
  }

  /** The same from any state, with one more budget for the command that is outstanding. */
  lemma DrainFromAny(p: Poll, ticks: seq<Tick>, timeout: nat, e: nat, k: nat)
    requires e > 0 && k <= |p.cmdQ| && |p.bumps| == |p.written|
    requires Clocked(ticks, e) && |ticks| >= (k + 1) * Budget(timeout, e)
    requires p.outstanding.Some? && ticks != [] ==> ticks[0].sendTime >= p.outstanding.value.at
    ensures var q := Run(p, ticks, timeout);
            && p.written + p.cmdQ[..k] <= q.written
            && |p.bumps| + k <= |q.bumps|
            && forall i :: |p.bumps| <= i < |p.bumps| + k ==> q.bumps[i] < |q.evtQ|
  {
    hide Run, Iterate, Clocked, Budget, Arrivals;
    BudgetIsPositive(timeout, e);
    assert (k + 1) * Budget(timeout, e) == k * Budget(timeout, e) + Budget(timeout, e);
    assert k * Budget(timeout, e) >= 0;
    if p.outstanding.None? {
      DrainBound(p, ticks, timeout, e, k);
    } else {
      var m := Wait(p, ticks, timeout, e, 0);
      var q := Run(p, ticks[..m], timeout);
      RunSplit(p, ticks, m, timeout);
      ClockedDrop(ticks, e, m);
      DrainBound(q, ticks[m..], timeout, e, k);
      assert q.cmdQ[..k] == p.cmdQ[..k];
    }
  }

  // ---------------------------------------------------------------- no timeout too early

  /** The trigger value the loop has seen before iteration `m`. */
  function LastSeen(p: Poll, ticks: seq<Tick>, m: nat): int
    requires m <= |ticks|
  {
    if m == 0 then p.lastRsp else ticks[m - 1].rspTrigger
  }

  /** Iteration `m` sees no trigger change. */
  predicate Unchanged(p: Poll, ticks: seq<Tick>, m: nat)
    requires m < |ticks|
  {
    ticks[m].rspTrigger == LastSeen(p, ticks, m)
  }

  /** Iteration `j` writes a command: none is outstanding and one is queued. */
  predicate Sends(p: Poll, ticks: seq<Tick>, timeout: nat, j: nat)
    requires j < |ticks|
  {
    var s := Run(p, ticks[..j], timeout);
    s.outstanding.None? && s.cmdQ + ticks[j].arrivals != []
  }

  /** The command written in iteration `j` has met neither a trigger change nor its timeout before iteration `i`. */
  predicate Patient(p: Poll, ticks: seq<Tick>, timeout: nat, j: nat, i: nat)
    requires j <= i <= |ticks|
  {
    forall m :: j <= m < i ==> Unchanged(p, ticks, m) && ticks[m].checkTime - ticks[j].sendTime <= timeout
  }

  lemma RunStep(p: Poll, ticks: seq<Tick>, timeout: nat, i: nat)
    requires i < |ticks|
    ensures Run(p, ticks[..i + 1], timeout) == Iterate(Run(p, ticks[..i], timeout), ticks[i], timeout)
  {
    hide Iterate, Run;
    var front := ticks[..i + 1];
    RunSplit(p, front, i, timeout);
    assert front[..i] == ticks[..i] && front[i..] == [ticks[i]];
    RunOne(Run(p, ticks[..i], timeout), ticks[i], timeout);
  }

  lemma RunOne(p: Poll, t: Tick, timeout: nat)
    ensures Run(p, [t], timeout) == Iterate(p, t, timeout)
  {
    hide Iterate;
    assert [t][1..] == [];
  }

  lemma RunNothing(p: Poll, ticks: seq<Tick>, timeout: nat)
    ensures Run(p, ticks[..0], timeout) == p
  {}

  lemma {:induction false} RunLastRsp(p: Poll, ticks: seq<Tick>, timeout: nat, i: nat)
    requires i <= |ticks|
    ensures Run(p, ticks[..i], timeout).lastRsp == LastSeen(p, ticks, i)
  {
    hide Iterate, Run;
    if i == 0 {
      RunNothing(p, ticks, timeout);
    } else {
      RunStep(p, ticks, timeout, i - 1);
      IterateBalance(Run(p, ticks[..i - 1], timeout), ticks[i - 1], timeout);
    }
  }

  /** One iteration, case by case: what is outstanding after it, and whether it gives up. */
  lemma IterationCases(s: Poll, t: Tick, timeout: nat)
    ensures var q := Iterate(s, t, timeout);
            var sends := s.outstanding.None? && s.cmdQ + t.arrivals != [];
            var queue := s.cmdQ + t.arrivals;
            var pending := if sends then Some(Sent(queue[0].id, queue[0].kind, t.sendTime)) else s.outstanding;
            var gaveUp := t.rspTrigger == s.lastRsp && pending.Some? && t.checkTime - pending.value.at > timeout;
            && q.outstanding == (if t.rspTrigger != s.lastRsp || gaveUp then None else pending)
            && q.synthesized == s.synthesized + (if gaveUp then [TimeoutOf(pending.value)] else [])
            && q.written == s.written + (if sends then [queue[0]] else [])
            && q.evtQ == s.evtQ + (if t.rspTrigger != s.lastRsp then [t.rsp]
                                   else if gaveUp then [TimeoutOf(pending.value)] else [])
  {}

  /** The outstanding command is the one written in iteration `j`. */
  predicate WaitsSince(p: Poll, ticks: seq<Tick>, timeout: nat, j: nat, i: nat)
    requires j < i <= |ticks|
  {
    var s := Run(p, ticks[..i], timeout);
    && Sends(p, ticks, timeout, j) && Patient(p, ticks, timeout, j, i)
    && s.written != []
    && s.outstanding == Some(Sent(s.written[|s.written| - 1].id, s.written[|s.written| - 1].kind, ticks[j].sendTime))
  }

  /** Something is outstanding before iteration `i` only if some iteration's command is being waited for. */
  ghost predicate Justified(p: Poll, ticks: seq<Tick>, timeout: nat, i: nat)
    requires i <= |ticks|
  {
    Run(p, ticks[..i], timeout).outstanding.Some? ==> exists j :: 0 <= j < i && WaitsSince(p, ticks, timeout, j, i)
  }

  /** A command being waited for is outstanding before iteration `i`. */
  ghost predicate Remembered(p: Poll, ticks: seq<Tick>, timeout: nat, i: nat)
    requires i <= |ticks|
  {
    forall j :: 0 <= j < i && Sends(p, ticks, timeout, j) && Patient(p, ticks, timeout, j, i) ==>
                  var o := Run(p, ticks[..i], timeout).outstanding; o.Some? && o.value.at == ticks[j].sendTime
  }

  /** From rest, a command is outstanding exactly while some earlier iteration's command is being waited for. */
  lemma {:induction false} OutstandingIff(p: Poll, ticks: seq<Tick>, timeout: nat, i: nat)
    requires p.outstanding.None? && i <= |ticks|
    ensures Justified(p, ticks, timeout, i) && Remembered(p, ticks, timeout, i)
    decreases i
  {
    hide Iterate, Run, Sends;
    if i == 0 {
      RunNothing(p, ticks, timeout);
    } else {
      OutstandingIff(p, ticks, timeout, i - 1);
      StillJustified(p, ticks, timeout, i - 1, i);
      StillRemembered(p, ticks, timeout, i - 1, i);
    }
  }

  lemma StartsWaiting(p: Poll, ticks: seq<Tick>, timeout: nat, i: nat, n: nat)
    requires i < |ticks| && n == i + 1
    requires Sends(p, ticks, timeout, i) && Run(p, ticks[..n], timeout).outstanding.Some?
    ensures WaitsSince(p, ticks, timeout, i, n)
  {
    hide Iterate, Run;
    RunStep(p, ticks, timeout, i);
    RunLastRsp(p, ticks, timeout, i);
    IterationCases(Run(p, ticks[..i], timeout), ticks[i], timeout);
  }

  lemma GoesOnWaiting(p: Poll, ticks: seq<Tick>, timeout: nat, j: nat, i: nat, n: nat)
    requires j < i < |ticks| && n == i + 1
    requires WaitsSince(p, ticks, timeout, j, i) && Run(p, ticks[..n], timeout).outstanding.Some?
    ensures WaitsSince(p, ticks, timeout, j, n)
  {
    hide Iterate, Run, Sends;
    RunStep(p, ticks, timeout, i);
    RunLastRsp(p, ticks, timeout, i);
    IterationCases(Run(p, ticks[..i], timeout), ticks[i], timeout);
  }

  lemma NothingPends(p: Poll, ticks: seq<Tick>, timeout: nat, i: nat, n: nat)
    requires i < |ticks| && n == i + 1 && !Sends(p, ticks, timeout, i)
    requires Run(p, ticks[..n], timeout).outstanding.Some?
    ensures Run(p, ticks[..i], timeout).outstanding.Some?
  {
    hide Iterate, Run;
    RunStep(p, ticks, timeout, i);
    IterationCases(Run(p, ticks[..i], timeout), ticks[i], timeout);
  }

  lemma StillJustified(p: Poll, ticks: seq<Tick>, timeout: nat, i: nat, n: nat)
    requires i < |ticks| && n == i + 1 && Justified(p, ticks, timeout, i)
    ensures Justified(p, ticks, timeout, n)
  {
    hide Run, Sends, WaitsSince;
    if Run(p, ticks[..n], timeout).outstanding.Some? {
      if Sends(p, ticks, timeout, i) {
        StartsWaiting(p, ticks, timeout, i, n);
      } else {
        NothingPends(p, ticks, timeout, i, n);
        var j :| 0 <= j < i && WaitsSince(p, ticks, timeout, j, i);
        GoesOnWaiting(p, ticks, timeout, j, i, n);
      }
    }
  }

  lemma StillRemembered(p: Poll, ticks: seq<Tick>, timeout: nat, i: nat, n: nat)
    requires i < |ticks| && n == i + 1 && Remembered(p, ticks, timeout, i)
    ensures Remembered(p, ticks, timeout, n)
  {
    hide Iterate, Run;
    RunStep(p, ticks, timeout, i);
    RunLastRsp(p, ticks, timeout, i);
    IterationCases(Run(p, ticks[..i], timeout), ticks[i], timeout);
    forall j | 0 <= j < n && Sends(p, ticks, timeout, j) && Patient(p, ticks, timeout, j, n)
      ensures var o := Run(p, ticks[..n], timeout).outstanding; o.Some? && o.value.at == ticks[j].sendTime
    {
      assert Unchanged(p, ticks, i);
      if j < i {
        assert Patient(p, ticks, timeout, j, i);
      }
    }
  }

  /**
   A timeout is made up in iteration `i` of a run from rest exactly when some iteration `j` up to then wrote
   a command, no trigger change was seen since, and only now more than the timeout has passed since it was
   sent; and the event is that command's, the last one written.
   */
  lemma TimeoutIff(p: Poll, ticks: seq<Tick>, timeout: nat, i: nat)
    requires p.outstanding.None? && i < |ticks|
    ensures var s, q := Run(p, ticks[..i], timeout), Run(p, ticks[..i + 1], timeout);
            && (q.synthesized != s.synthesized <==>
                  exists j :: 0 <= j <= i && Sends(p, ticks, timeout, j) && Patient(p, ticks, timeout, j, i)
                              && Unchanged(p, ticks, i) && ticks[i].checkTime - ticks[j].sendTime > timeout)
            && (q.synthesized != s.synthesized ==>
                  && q.written != []
                  && var c := q.written[|q.written| - 1];
                     q.synthesized == s.synthesized + [Evt(c.id, STATUS_ERR_TIMEOUT, c.kind, [])])
  {
    hide Iterate, Run;
    var s, t := Run(p, ticks[..i], timeout), ticks[i];
    var q := Run(p, ticks[..i + 1], timeout);
    OutstandingIff(p, ticks, timeout, i);
    RunStep(p, ticks, timeout, i);
    RunLastRsp(p, ticks, timeout, i);
    IterationCases(s, t, timeout);
    if q.synthesized != s.synthesized {
      if s.outstanding.None? {
        assert Sends(p, ticks, timeout, i) && Patient(p, ticks, timeout, i, i);
      } else {
        var j :| 0 <= j < i && WaitsSince(p, ticks, timeout, j, i);
        assert Sends(p, ticks, timeout, j) && Patient(p, ticks, timeout, j, i);
      }
    }
    if j :| 0 <= j <= i && Sends(p, ticks, timeout, j) && Patient(p, ticks, timeout, j, i)
            && Unchanged(p, ticks, i) && t.checkTime - ticks[j].sendTime > timeout {
      assert |q.synthesized| == |s.synthesized| + 1;
    }
  }

  /** Within the timeout of the earliest send no timeout is made up at all, whatever was outstanding before. */
  lemma {:induction false} NoEarlyTimeout(p: Poll, ticks: seq<Tick>, timeout: nat, start: int)
    requires p.outstanding.Some? ==> p.outstanding.value.at >= start
    requires forall i :: 0 <= i < |ticks| ==> ticks[i].sendTime >= start && ticks[i].checkTime - start <= timeout
    ensures Run(p, ticks, timeout).synthesized == p.synthesized
    decreases |ticks|
  {
    if ticks != [] {
      hide Iterate;
      IterationCases(p, ticks[0], timeout);
      NoEarlyTimeout(Iterate(p, ticks[0], timeout), ticks[1..], timeout, start);
    }
  }

  /** Each iteration appends its one event, if it has one: the response it picked up, or else its timeout. */
  lemma EventsAreAppended(p: Poll, ticks: seq<Tick>, timeout: nat, i: nat)
    requires i < |ticks|
    ensures var s, q := Run(p, ticks[..i], timeout), Run(p, ticks[..i + 1], timeout);
            && s.synthesized <= q.synthesized
            && q.evtQ == s.evtQ + if !Unchanged(p, ticks, i) then [ticks[i].rsp] else q.synthesized[|s.synthesized|..]
  {
    hide Iterate, Run;
    RunStep(p, ticks, timeout, i);
    RunLastRsp(p, ticks, timeout, i);
    IterationCases(Run(p, ticks[..i], timeout), ticks[i], timeout);
  }
}
