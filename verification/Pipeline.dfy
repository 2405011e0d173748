/**
 The whole real backend: client lines, the poll loop of `VectorCom`, the System Variables, the CAPL node
 and the ECU, with every access of a shared variable and every event of the node as its own interleaved
 step. What reaches the client is what the mock backend would have sent.
 */
module Pipeline {
  import opened Base
  import opened MockEcu
  import opened Bridge
  import opened Refinement
  import Front
  import Handshake
  import Capl

  /** Bridge and node of the handshake; the core, its ECU and what the core has yet to publish. */
  datatype Pipe = Pipe(sys: Handshake.System, bench: Bench)

  datatype Move =
    | ClientLine(text: string)  // a text line arrives from a client
    | BridgeMove                // one access by the bridge thread
    | NodeMove                  // one access by the node, or one event of its core

  /** The core is handed the request the node has read. */
  function Started(b: Bench, r: Handshake.Request): Bench {
    Begin(b.core, b.ecu, Cmd(r.id, r.kind, r.arg, r.data))
  }

  const UNUSED := Evt(0, STATUS_POSITIVE, KIND_RAW, [])

  /** At work, the node publishes what the core has published, or else lets the core handle its next event. */
  function NodeStep(p: Pipe): Pipe {
    var s := p.sys;
    if s.node == Handshake.Working then
      if p.bench.pubs != [] then
        Pipe(Handshake.NodeStep(s, p.bench.pubs[0]), p.bench.(pubs := p.bench.pubs[1..]))
      else p.(bench := Tick(p.bench))
    else
      var t := Handshake.NodeStep(s, UNUSED);
      if |t.received| > |s.received| then Pipe(t, Started(p.bench, t.received[|t.received| - 1]))
      else p.(sys := t)
  }

  function Next(p: Pipe, m: Move, tool: string): Pipe {
    match m
    case ClientLine(text) =>
      var act := Front.Dispatch(text, tool);
      if act.Queued? then p.(sys := Handshake.Next(p.sys, Handshake.Client(act.cmd))) else p
    case BridgeMove => p.(sys := Handshake.BridgeStep(p.sys))
    case NodeMove => NodeStep(p)
  }

  function Run(p: Pipe, moves: seq<Move>, tool: string): Pipe {
    if moves == [] then p else Next(Run(p, moves[..|moves| - 1], tool), moves[|moves| - 1], tool)
  }

  /** The commands the dispatcher queues for the lines among the moves. */
  function QueuedBy(moves: seq<Move>, tool: string): seq<Cmd> {
    if moves == [] then []
    else
      var front, last := QueuedBy(moves[..|moves| - 1], tool), moves[|moves| - 1];
      if last.ClientLine? && Front.Dispatch(last.text, tool).Queued?
      then front + [Front.Dispatch(last.text, tool).cmd] else front
  }

  // ---------------------------------------------------------------- the commands considered

  type Table = seq<(int, Byte)>

  /** A DTC report on the table is no longer than the node's buffer. */
  predicate ReportFits(table: Table, req: Bytes) {
    |req| >= 3 && req[0] == 0x19 && req[1] == 0x02 ==> 3 + 4 * |Select(table, req[2])| <= Capl.MAX_LEN
  }

  /** No suppressed TesterPresent and no level FF, and the node truncates neither request nor answer. */
  predicate Routine(table: Table, c: Cmd) {
    && WellFormedCmd(c)
    && (c.kind == KIND_RAW ==> |c.data.value| <= Capl.MAX_LEN && !Suppressed(c.data.value))
    && (c.kind == KIND_SECURITY ==> c.arg < 0xFF)
    && (!IsTp(c.kind) ==> ReportFits(table, RequestBytes(c)))
  }

  predicate RoutineQueue(table: Table, cs: seq<Cmd>, last: int) {
    && (forall i :: 0 <= i < |cs| ==> Routine(table, cs[i]) && last < cs[i].id)
    && (forall i, j :: 0 <= i < j < |cs| ==> cs[i].id < cs[j].id)
  }

  /** No response-pending injected (a drop or another NRC may be), and a seed the node does not truncate. */
  predicate RoutineEcu(e: EcuState) {
    !e.injectPending && e.injectNrc != Some(0x78) && 0 < |e.seed| <= Capl.KEY_BUFFER
  }

  lemma RoutineAgrees(e: EcuState, c: Cmd)
    requires RoutineEcu(e) && Routine(e.dtcs, c)
    ensures FitsNode(e, c) && !Diverges(e, c) && !Unanswered(e, c)
  {}

  lemma HandleKeepsRoutine(e: EcuState, req: Bytes)
    requires RoutineEcu(e)
    ensures RoutineEcu(Handle(e, req).0) && Handle(e, req).0.dtcs == e.dtcs
  {}

  lemma DispatchKeepsRoutine(e: EcuState, c: Cmd)
    requires RoutineEcu(e) && WellFormedCmd(c)
    ensures RoutineEcu(FakeDispatch(e, c, false).0) && FakeDispatch(e, c, false).0.dtcs == e.dtcs
  {
    hide Handle, TestKey;
    assert e.(injectPending := false) == e;
    forall req: Bytes
      ensures RoutineEcu(Handle(e, req).0) && Handle(e, req).0.dtcs == e.dtcs
    {
      HandleKeepsRoutine(e, req);
    }
    if c.kind == KIND_SECURITY {
      var (seeded, answer) := Handle(e, [0x27, c.arg]);
      forall req: Bytes
        ensures RoutineEcu(Handle(seeded, req).0) && Handle(seeded, req).0.dtcs == e.dtcs
      {
        HandleKeepsRoutine(seeded, req);
      }
    }
  }

  /** The mock answers a routine command with one event. */
  lemma OneMockEvent(e: EcuState, c: Cmd)
    requires RoutineEcu(e) && Routine(e.dtcs, c)
    ensures |FakeDispatch(e, c, false).1| == 1
  {
    RoutineAgrees(e, c);
    AnsweredOnce(e, c);
  }

  // ---------------------------------------------------------------- the node, one command at a time

  const TICKS := 3

  /** The commands served by the node one after the other. */
  function Served(core: Capl.Core, e: EcuState, cs: seq<Cmd>): Bench {
    if cs == [] then Bench(core, e, [], [])
    else
      var before := Served(core, e, cs[..|cs| - 1]);
      var b := CaplDispatch(before.core, before.ecu, cs[|cs| - 1], TICKS);
      b.(pubs := before.pubs + b.pubs)
  }

  /** It takes a terminal publish to settle. */
  lemma {:induction false} SettlingPublishes(b: Bench, n: nat)
    requires !Settled(b) && Settled(Settle(b, n))
    ensures |Settle(b, n).pubs| > |b.pubs|
    ensures !IsPending(Settle(b, n).pubs[|Settle(b, n).pubs| - 1])
    decreases n
  {
    TickEffect(b);
    if !Settled(Tick(b)) {
      SettlingPublishes(Tick(b), n - 1);
    }
  }

  /** After one event the core is armed, or it has published a terminal. */
  lemma TickEffect(b: Bench)
    ensures |Tick(b).pubs| >= |b.pubs|
    ensures Tick(b).core.armed || (|Tick(b).pubs| == |b.pubs| + 1 && !IsPending(Tick(b).pubs[|b.pubs|]))
  {
    if b.inbox != [] {
      var (core, outs) := Capl.OnDiagResponse(b.core, b.inbox[0], MockKey);
      AnswerOutput(b.core, b.inbox[0]);
      FeedOne(b.(inbox := b.inbox[1..]), core, outs[0]);
      assert outs == [outs[0]];
    } else {
      var (core, outs) := Capl.OnTimeout(b.core);
      FeedOne(b, core, outs[0]);
      assert outs == [outs[0]];
    }
  }

  lemma AnswerOutput(c: Capl.Core, frame: Bytes)
    ensures var (core, outs) := Capl.OnDiagResponse(c, frame, MockKey);
            && |outs| == 1
            && (core.armed || (outs[0].Publish? && !IsPending(outs[0].evt)))
  {}

  lemma FeedOne(b: Bench, core: Capl.Core, o: Capl.Output)
    ensures var t := Feed(b, core, [o]);
            t.core == core && t.pubs == b.pubs + if o.Publish? then [o.evt] else []
  {
    match o
    case Publish(v) => FeedPublish(b, core, v);
    case Transmit(frame) => FeedTransmit(b, core, frame);
  }

  /** A routine command on an idle node: one terminal publish, and the mock's line and ECU. */
  lemma RoutineCommand(core: Capl.Core, e: EcuState, c: Cmd)
    requires RoutineEcu(e) && Routine(e.dtcs, c) && Ready(core, c.id)
    ensures var b := CaplDispatch(core, e, c, TICKS);
            && Agrees(b, e, c) && |b.pubs| == 1 && !IsPending(b.pubs[0])
  {
    hide FakeDispatch, FitsNode, Diverges, Tick, Begin, EncodeResponse, RoutineEcu, RequestBytes, Receive;
    RoutineAgrees(e, c);
    CommandAgrees(core, e, c, TICKS);
    OneMockEvent(e, c);
    assert |Lines(CaplDispatch(core, e, c, TICKS).pubs)| == 1;
    if IsTp(c.kind) {
      TpBegins(core, e, c);
    } else {
      BeginSends(core, e, c);
      SettlingPublishes(Begin(core, e, c), TICKS);
    }
  }

  lemma TpBegins(core: Capl.Core, e: EcuState, c: Cmd)
    requires IsTp(c.kind) && !core.armed
    ensures Begin(core, e, c) == Bench(core, e, [], [Evt(c.id, STATUS_OK, c.kind, [])])
  {
    FeedPublish(Bench(core, e, [], []), core, Evt(c.id, STATUS_OK, c.kind, []));
  }

  // ---------------------------------------------------------------- the node, a whole queue at a time

  lemma ServedSnoc(core: Capl.Core, e: EcuState, cs: seq<Cmd>, k: nat)
    requires k < |cs|
    ensures var before := Served(core, e, cs[..k]);
            var b := CaplDispatch(before.core, before.ecu, cs[k], TICKS);
            Served(core, e, cs[..k + 1]) == b.(pubs := before.pubs + b.pubs)
  {
    assert cs[..k + 1][..k] == cs[..k];
  }

  lemma RoutineFront(e: EcuState, cs: seq<Cmd>, k: nat, last: int)
    requires RoutineQueue(e.dtcs, cs, last) && k <= |cs|
    ensures RoutineQueue(e.dtcs, cs[..k], last)
  {}

  /** What `k` routine commands leave behind: an idle node, one terminal publish each, the mock's lines and ECU. */
  ghost predicate InStep(b: Bench, e: EcuState, cs: seq<Cmd>, last: int) {
    && Settled(b) && RoutineEcu(b.ecu) && b.ecu.dtcs == e.dtcs
    && b.ecu == FakeRun(e, cs).0 && Lines(b.pubs) == Lines(FakeRun(e, cs).1) && |b.pubs| == |cs|
    && (forall i :: 0 <= i < |b.pubs| ==> !IsPending(b.pubs[i]))
    && (b.core.secActive ==> b.core.secSeq <= if cs == [] then last else cs[|cs| - 1].id)
  }

  lemma {:induction false} ServedInStep(core: Capl.Core, e: EcuState, cs: seq<Cmd>, last: int)
    requires RoutineEcu(e) && RoutineQueue(e.dtcs, cs, last) && !core.armed && (core.secActive ==> core.secSeq <= last)
    ensures InStep(Served(core, e, cs), e, cs, last)
    decreases |cs|
  {
    if cs != [] {
      var front, c := cs[..|cs| - 1], cs[|cs| - 1];
      RoutineFront(e, cs, |cs| - 1, last);
      ServedInStep(core, e, front, last);
      assert front == [] || front[|front| - 1] == cs[|cs| - 2];
      var before := Served(core, e, front);
      OneMoreInStep(before, e, front, c, last);
      assert front + [c] == cs;
    }
  }

  lemma OneMoreInStep(before: Bench, e: EcuState, front: seq<Cmd>, c: Cmd, last: int)
    requires InStep(before, e, front, last) && Routine(e.dtcs, c)
    requires Ready(before.core, c.id)
    ensures var b := CaplDispatch(before.core, before.ecu, c, TICKS);
            InStep(b.(pubs := before.pubs + b.pubs), e, front + [c], last)
  {
    hide Settled, CaplDispatch, FakeDispatch, RoutineEcu, EncodeResponse, Routine;
    var b := CaplDispatch(before.core, before.ecu, c, TICKS);
    RoutineCommand(before.core, before.ecu, c);
    RoutineIsWellFormed(e, c);
    DispatchKeepsRoutine(before.ecu, c);
    FakeRunSnoc(e, front + [c], |front|);
    assert (front + [c])[..|front|] == front && (front + [c])[..|front| + 1] == front + [c];
    LinesConcat(before.pubs, b.pubs);
    LinesConcat(FakeRun(e, front).1, FakeDispatch(before.ecu, c, false).1);
    SettledAgain(b, before.pubs + b.pubs);
  }

  lemma RoutineIsWellFormed(e: EcuState, c: Cmd)
    requires Routine(e.dtcs, c)
    ensures WellFormedCmd(c)
  {}

  lemma SettledAgain(b: Bench, pubs: seq<Evt>)
    ensures Settled(b.(pubs := pubs)) == Settled(b)
  {}

  // ---------------------------------------------------------------- what every interleaving keeps

  /** The core is somewhere between the trigger of `c` and its settlement. */
  ghost predicate Serving(b: Bench, before: Bench, c: Cmd) {
    exists n: nat :: Settle(b, n) == CaplDispatch(before.core, before.ecu, c, TICKS)
  }

  /** The handshake's own invariant, and a core that is as far as the published answers say. */
  ghost predicate Inv(p: Pipe, core: Capl.Core, e: EcuState) {
    var s, q := p.sys, |p.sys.published|;
    && Handshake.Inv(s) && q <= |s.enqueued|
    && var before := Served(core, e, s.enqueued[..q]);
       && s.published == before.pubs
       && if s.node == Handshake.Working then q < |s.enqueued| && Serving(p.bench, before, s.enqueued[q])
          else p.bench == before.(pubs := [])
  }

  lemma BridgeLeavesNode(s: Handshake.System)
    ensures var t := Handshake.BridgeStep(s);
            t.node == s.node && t.published == s.published && t.enqueued == s.enqueued
  {}

  lemma WorkingFacts(s: Handshake.System, rsp: Evt)
    requires Handshake.Inv(s) && s.node == Handshake.Working
    ensures |s.published| < |s.enqueued|
    ensures var t := Handshake.NodeStep(s, rsp);
            t.published == s.published + [rsp] && t.enqueued == s.enqueued && t.node != Handshake.Working
  {
    assert Handshake.PhaseOf(s).Serving?;
  }

  lemma OtherFacts(s: Handshake.System)
    requires Handshake.Inv(s) && s.node != Handshake.Working
    ensures var t := Handshake.NodeStep(s, UNUSED);
            && t.published == s.published && t.enqueued == s.enqueued
            && if |t.received| > |s.received|
               then t.node == Handshake.Working && |t.received| == |t.published| + 1 == |t.dequeued|
               else t.node != Handshake.Working
  {
    if s.node.WriteTrigger? {
      PublishingIsTerminal(s);
    } else if s.node.ReadReqArg? || s.node.ReadReqData? {
      assert Handshake.PhaseOf(s).Serving?;
    }
  }

  lemma PublishingIsTerminal(s: Handshake.System)
    requires Handshake.Inv(s) && s.node.WriteTrigger?
    ensures !IsPending(s.node.rsp)
  {
    assert Handshake.PhaseOf(s).Answering?;
    assert s.node.rsp == s.published[|s.published| - 1];
  }

  /** The node has read exactly the next command. */
  lemma RequestIsNext(t: Handshake.System)
    requires Handshake.Inv(t) && t.received != [] && |t.received| == |t.published| + 1 == |t.dequeued|
    ensures |t.published| < |t.enqueued|
    ensures t.received[|t.received| - 1] == Handshake.AsRequest(t.enqueued[|t.published|])
  {
    assert t.enqueued[|t.published|] == t.dequeued[|t.published|];
  }

  lemma ClientLineKeepsInv(p: Pipe, c: Cmd, core: Capl.Core, e: EcuState)
    requires Inv(p, core, e) && WellFormedCmd(c)
    ensures Inv(p.(sys := Handshake.Next(p.sys, Handshake.Client(c))), core, e)
  {
    hide Handshake.Inv, Served, Serving;
    Handshake.ClientKeepsInv(p.sys, c);
    var q := |p.sys.published|;
    assert (p.sys.enqueued + [c])[..q] == p.sys.enqueued[..q];
  }

  lemma BridgeMoveKeepsInv(p: Pipe, core: Capl.Core, e: EcuState)
    requires Inv(p, core, e)
    ensures Inv(p.(sys := Handshake.BridgeStep(p.sys)), core, e)
  {
    hide Handshake.Inv, Handshake.BridgeStep, Served, Serving;
    Handshake.BridgeKeepsInv(p.sys);
    BridgeLeavesNode(p.sys);
  }

  lemma OtherMoveKeepsInv(p: Pipe, core: Capl.Core, e: EcuState)
    requires Inv(p, core, e) && p.sys.node != Handshake.Working
    ensures Inv(NodeStep(p), core, e)
  {
    hide Handshake.Inv, Handshake.NodeStep, Served, Begin, Settle;
    var s := p.sys;
    var t := Handshake.NodeStep(s, UNUSED);
    Handshake.NodeKeepsInv(s, UNUSED);
    OtherFacts(s);
    if |t.received| > |s.received| {
      RequestIsNext(t);
      var q := |t.published|;
      var before, c := Served(core, e, t.enqueued[..q]), t.enqueued[q];
      assert Settle(Begin(before.core, before.ecu, c), TICKS) == CaplDispatch(before.core, before.ecu, c, TICKS);
      assert NodeStep(p).bench == Begin(before.core, before.ecu, c);
    }
  }

  /** A core that has published has settled, and one that has not has not. */
  lemma PublishedIffSettled(b: Bench, n: nat)
    requires Settled(Settle(b, n)) && |Settle(b, n).pubs| == 1
    ensures if b.pubs == [] then !Settled(b) && n > 0 && Settle(b, n) == Settle(Tick(b), n - 1)
            else Settle(b, n) == b
  {
    if !Settled(b) {
      SettlingPublishes(b, n);
    }
  }

  lemma WorkingMoveKeepsInv(p: Pipe, core: Capl.Core, e: EcuState, last: int)
    requires Inv(p, core, e) && p.sys.node == Handshake.Working
    requires RoutineEcu(e) && RoutineQueue(e.dtcs, p.sys.enqueued, last)
    requires !core.armed && (core.secActive ==> core.secSeq <= last)
    ensures Inv(NodeStep(p), core, e)
  {
    hide Handshake.Inv, Handshake.NodeStep, Served, Settle, Tick, Settled, RoutineEcu, Routine, CaplDispatch;
    var s, q := p.sys, |p.sys.published|;
    var before, c := Served(core, e, s.enqueued[..q]), s.enqueued[q];
    var target := CaplDispatch(before.core, before.ecu, c, TICKS);
    NextIsServed(core, e, s.enqueued, q, last);
    var n: nat :| Settle(p.bench, n) == target;
    PublishedIffSettled(p.bench, n);
    if p.bench.pubs == [] {
      assert Serving(Tick(p.bench), before, c);
    } else {
      var rsp := target.pubs[0];
      Handshake.NodeKeepsInv(s, rsp);
      WorkingFacts(s, rsp);
      ServedSnoc(core, e, s.enqueued, q);
      assert target.pubs == [rsp] && target.pubs[1..] == [];
    }
  }

  lemma NextIsServed(core: Capl.Core, e: EcuState, cs: seq<Cmd>, q: nat, last: int)
    requires RoutineEcu(e) && RoutineQueue(e.dtcs, cs, last) && !core.armed && (core.secActive ==> core.secSeq <= last)
    requires q < |cs|
    ensures var before := Served(core, e, cs[..q]);
            var b := CaplDispatch(before.core, before.ecu, cs[q], TICKS);
            Settled(b) && |b.pubs| == 1 && !IsPending(b.pubs[0])
  {
    hide CaplDispatch, FakeDispatch, Served, FakeRun, Lines;
    RoutineFront(e, cs, q, last);
    ServedInStep(core, e, cs[..q], last);
    assert q > 0 ==> cs[..q][q - 1] == cs[q - 1];
    RoutineCommand(Served(core, e, cs[..q]).core, Served(core, e, cs[..q]).ecu, cs[q]);
  }

  // ---------------------------------------------------------------- main result

  /** Nothing in flight: no command, no event, an idle core on an ECU in any routine state. */
  predicate AtRest(p: Pipe, core: Capl.Core, e: EcuState) {
    Handshake.Pristine(p.sys) && p.bench == Bench(core, e, [], []) && !core.armed && RoutineEcu(e)
  }

  lemma NodeEnqueuesNothing(p: Pipe)
    ensures NodeStep(p).sys.enqueued == p.sys.enqueued
  {
    hide Tick, Begin;
  }

  lemma StepEnqueues(p: Pipe, m: Move, tool: string)
    ensures Next(p, m, tool).sys.enqueued
         == if m.ClientLine? && Front.Dispatch(m.text, tool).Queued?
            then p.sys.enqueued + [Front.Dispatch(m.text, tool).cmd] else p.sys.enqueued
  {
    hide Front.Dispatch, NodeStep, Handshake.BridgeStep;
    BridgeLeavesNode(p.sys);
    NodeEnqueuesNothing(p);
  }

  lemma {:induction false} EnqueuedByLines(p: Pipe, moves: seq<Move>, tool: string)
    requires p.sys.enqueued == []
    ensures Run(p, moves, tool).sys.enqueued == QueuedBy(moves, tool)
    decreases |moves|
  {
    if moves != [] {
      var front := moves[..|moves| - 1];
      hide Next, Front.Dispatch;
      EnqueuedByLines(p, front, tool);
      StepEnqueues(Run(p, front, tool), moves[|moves| - 1], tool);
    }
  }

  lemma QueuedFront(e: EcuState, moves: seq<Move>, tool: string, last: int)
    requires moves != [] && RoutineQueue(e.dtcs, QueuedBy(moves, tool), last)
    ensures RoutineQueue(e.dtcs, QueuedBy(moves[..|moves| - 1], tool), last)
  {
    var front := QueuedBy(moves[..|moves| - 1], tool);
    assert front <= QueuedBy(moves, tool);
    assert QueuedBy(moves, tool)[..|front|] == front;
    RoutineFront(e, QueuedBy(moves, tool), |front|, last);
  }

  lemma {:induction false} EveryRunKeepsInv(p: Pipe, core: Capl.Core, e: EcuState, moves: seq<Move>, tool: string,
          last: int)
    requires AtRest(p, core, e) && (core.secActive ==> core.secSeq <= last)
    requires RoutineQueue(e.dtcs, QueuedBy(moves, tool), last)
    ensures Inv(Run(p, moves, tool), core, e)
    decreases |moves|
  {
    if moves != [] {
      var front, m := moves[..|moves| - 1], moves[|moves| - 1];
      hide Inv, RoutineQueue, NodeStep, Front.Dispatch;
      QueuedFront(e, moves, tool, last);
      EveryRunKeepsInv(p, core, e, front, tool, last);
      EnqueuedByLines(p, front, tool);
      var v := Run(p, front, tool);
      match m
      case ClientLine(text) =>
        if Front.Dispatch(text, tool).Queued? {
          Front.QueuedIsWellFormed(text, tool);
          ClientLineKeepsInv(v, Front.Dispatch(text, tool).cmd, core, e);
        }
      case BridgeMove => BridgeMoveKeepsInv(v, core, e);
      case NodeMove =>
        if v.sys.node == Handshake.Working {
          WorkingMoveKeepsInv(v, core, e, last);
        } else {
          OtherMoveKeepsInv(v, core, e);
        }
    } else {
      RestKeepsInv(p, core, e);
    }
  }

  lemma RestKeepsInv(p: Pipe, core: Capl.Core, e: EcuState)
    requires AtRest(p, core, e)
    ensures Inv(p, core, e)
  {}

  lemma {:induction false} OneEventEach(e: EcuState, cs: seq<Cmd>, k: nat, last: int)
    requires RoutineEcu(e) && RoutineQueue(e.dtcs, cs, last) && k <= |cs|
    ensures RoutineEcu(FakeRun(e, cs[..k]).0) && FakeRun(e, cs[..k]).0.dtcs == e.dtcs
    ensures |FakeRun(e, cs[..k]).1| == k
    decreases k
  {
    if k > 0 {
      OneEventEach(e, cs, k - 1, last);
      FakeRunSnoc(e, cs, k - 1);
      var before := FakeRun(e, cs[..k - 1]).0;
      OneMockEvent(before, cs[k - 1]);
      DispatchKeepsRoutine(before, cs[k - 1]);
    }
  }

  /**
   The real backend refines the mock. However clients, bridge thread, node and ECU interleave, the events
   delivered so far are rendered as exactly the lines the mock sends for the first as many queued commands,
   and at rest every command is answered and the ECU is in the mock's state. (Routine commands with
   increasing ids, no response-pending injected, and no bridge timeout.)
   */
  lemma VectorComAnswersLikeTheMock(p: Pipe, core: Capl.Core, e: EcuState, moves: seq<Move>, tool: string, last: int)
    requires AtRest(p, core, e) && (core.secActive ==> core.secSeq <= last)
    requires RoutineQueue(e.dtcs, QueuedBy(moves, tool), last)
    ensures var t, cs := Run(p, moves, tool), QueuedBy(moves, tool);
            && |t.sys.evtQ| <= |cs|
            && Lines(t.sys.evtQ) == Lines(FakeRun(e, cs[..|t.sys.evtQ|]).1)
            && |FakeRun(e, cs[..|t.sys.evtQ|]).1| == |t.sys.evtQ|
            && (Handshake.Quiescent(t.sys) && t.sys.cmdQ == [] ==>
                  Lines(t.sys.evtQ) == Lines(FakeRun(e, cs).1) && t.bench.ecu == FakeRun(e, cs).0)
  {
    EveryRunKeepsInv(p, core, e, moves, tool, last);
    EnqueuedByLines(p, moves, tool);
    DeliveredLines(Run(p, moves, tool), core, e, last);
  }

  lemma DeliveredLines(t: Pipe, core: Capl.Core, e: EcuState, last: int)
    requires Inv(t, core, e) && RoutineEcu(e) && RoutineQueue(e.dtcs, t.sys.enqueued, last)
    requires !core.armed && (core.secActive ==> core.secSeq <= last)
    ensures var cs, k := t.sys.enqueued, |t.sys.evtQ|;
            && k <= |cs|
            && Lines(t.sys.evtQ) == Lines(FakeRun(e, cs[..k]).1)
            && |FakeRun(e, cs[..k]).1| == k
            && (Handshake.Quiescent(t.sys) && t.sys.cmdQ == [] ==>
                  Lines(t.sys.evtQ) == Lines(FakeRun(e, cs).1) && t.bench.ecu == FakeRun(e, cs).0)
  {
    var s := t.sys;
    var cs, k, q := s.enqueued, |s.evtQ|, |s.published|;
    EventsAreThePublished(s);
    RoutineFront(e, cs, q, last);
    ServedInStep(core, e, cs[..q], last);
    RoutineFront(e, cs, k, last);
    ServedInStep(core, e, cs[..k], last);
    ServedPrefix(core, e, cs, k, q);
    OneEventEach(e, cs, k, last);
    assert s.evtQ == Served(core, e, cs[..k]).pubs;
    if Handshake.Quiescent(s) && s.cmdQ == [] {
      assert cs[..k] == cs;
    }
  }

  /** What the handshake's invariant says about the events and the node. */
  lemma EventsAreThePublished(s: Handshake.System)
    requires Handshake.Inv(s)
    ensures |s.evtQ| <= |s.published| && s.evtQ == s.published[..|s.evtQ|]
    ensures Handshake.Quiescent(s) && s.cmdQ == [] ==> |s.evtQ| == |s.published| == |s.enqueued|
  {}

  lemma {:induction false} ServedPrefix(core: Capl.Core, e: EcuState, cs: seq<Cmd>, k: nat, q: nat)
    requires k <= q <= |cs|
    ensures Served(core, e, cs[..k]).pubs <= Served(core, e, cs[..q]).pubs
    decreases q
  {
    hide Served, CaplDispatch;
    if k < q {
      ServedPrefix(core, e, cs, k, q - 1);
      ServedSnoc(core, e, cs, q - 1);
    }
  }
}
