/**
 The System Variable handshake between `VectorCom._run` and the CAPL node, with every read and every
 write of a shared variable as its own interleaved step. The two agents synchronise only through the
 two trigger counters and the one-outstanding rule; still nothing is torn, lost or repeated.
 */
module Handshake {
  import opened Base
  import opened Bridge
  import Capl

  /** Where the bridge thread is: between two accesses of shared variables, with its locals. */
  datatype BridgePc =
    | LoopTop
    | WriteReqData(cmd: Cmd)
    | WriteReqSeq(cmd: Cmd)
    | WriteReqKind(cmd: Cmd)
    | WriteReqArg(cmd: Cmd)
    | ReadReqTrigger(cmd: Cmd)
    | WriteReqTrigger(cmd: Cmd, trigger: int)
    | ReadRspTrigger
    | ReadRspSeq
    | ReadRspStatus(id: int)
    | ReadRspKind(id: int, status: int)
    | ReadRspData(id: int, status: int, kind: int)

  /**
   Where the CAPL node is. `Working` lasts until the core calls `PublishRsp`; after a response-pending
   the core works on.
   */
  datatype NodePc =
    | Idle
    | ReadReqSeq
    | ReadReqKind(id: int)
    | ReadReqArg(id: int, kind: int)
    | ReadReqData(id: int, kind: int, arg: int)
    | Working
    | WriteRspData(rsp: Evt)
    | WriteRspSeq(rsp: Evt)
    | WriteRspStatus(rsp: Evt)
    | WriteRspKind(rsp: Evt)
    | ReadTrigger(rsp: Evt)
    | WriteTrigger(rsp: Evt, trigger: int)

  /** What the node took from the request variables. */
  datatype Request = Request(id: int, kind: int, arg: int, data: Option<Bytes>)

  datatype Vars = Vars(
    reqData: Bytes, reqSeq: int, reqKind: int, reqArg: int, reqTrigger: int,
    rspData: Bytes, rspSeq: int, rspStatus: int, rspKind: int, rspTrigger: int)

  datatype System = System(
    vars: Vars,
    fired: nat,                 // ReqTrigger notifications the node has not handled yet
    bridge: BridgePc,
    node: NodePc,
    lastRsp: int,
    outstanding: bool,
    cmdQ: seq<Cmd>,
    evtQ: seq<Evt>,
    // histories
    enqueued: seq<Cmd>,
    dequeued: seq<Cmd>,
    received: seq<Request>,
    published: seq<Evt>)

  datatype Move =
    | Client(cmd: Cmd)          // the WebSocket side queues a command
    | BridgeMove                // one access by the bridge thread
    | NodeMove(rsp: Evt)        // one access by the node; `rsp` is what it publishes if it is working

  function AsRequest(c: Cmd): Request {
    Request(c.id, c.kind, c.arg, c.data)
  }

  function Next(s: System, m: Move): System {
    match m
    case Client(c) => s.(cmdQ := s.cmdQ + [c], enqueued := s.enqueued + [c])
    case BridgeMove => BridgeStep(s)
    case NodeMove(rsp) => NodeStep(s, rsp)
  }

  function BridgeStep(s: System): System {
    var v := s.vars;
    match s.bridge
    case LoopTop =>
      if !s.outstanding && s.cmdQ != [] then
        var c := s.cmdQ[0];
        s.(cmdQ := s.cmdQ[1..], dequeued := s.dequeued + [c],
           bridge := if c.data.Some? then WriteReqData(c) else WriteReqSeq(c))
      else s.(bridge := ReadRspTrigger)
    case WriteReqData(c) =>
      s.(vars := v.(reqData := if c.data.Some? then c.data.value else v.reqData), bridge := WriteReqSeq(c))
    case WriteReqSeq(c) => s.(vars := v.(reqSeq := c.id), bridge := WriteReqKind(c))
    case WriteReqKind(c) => s.(vars := v.(reqKind := c.kind), bridge := WriteReqArg(c))
    case WriteReqArg(c) => s.(vars := v.(reqArg := c.arg), bridge := ReadReqTrigger(c))
    case ReadReqTrigger(c) => s.(bridge := WriteReqTrigger(c, v.reqTrigger))
    case WriteReqTrigger(c, trigger) =>
      s.(vars := v.(reqTrigger := trigger + 1), fired := s.fired + 1, outstanding := true, bridge := ReadRspTrigger)
    case ReadRspTrigger =>
      if v.rspTrigger != s.lastRsp then
        s.(lastRsp := v.rspTrigger, outstanding := false, bridge := ReadRspSeq)
      else s.(bridge := LoopTop)
    case ReadRspSeq => s.(bridge := ReadRspStatus(v.rspSeq))
    case ReadRspStatus(id) => s.(bridge := ReadRspKind(id, v.rspStatus))
    case ReadRspKind(id, status) => s.(bridge := ReadRspData(id, status, v.rspKind))
    case ReadRspData(id, status, kind) =>
      s.(evtQ := s.evtQ + [Evt(id, status, kind, v.rspData)], bridge := LoopTop)
  }

  function NodeStep(s: System, rsp: Evt): System {
    var v := s.vars;
    match s.node
    case Idle => if s.fired > 0 then s.(fired := s.fired - 1, node := ReadReqSeq) else s
    case ReadReqSeq => s.(node := ReadReqKind(v.reqSeq))
    case ReadReqKind(id) => s.(node := ReadReqArg(id, v.reqKind))
    case ReadReqArg(id, kind) =>
      if kind == KIND_RAW then s.(node := ReadReqData(id, kind, v.reqArg))
      else s.(node := Working, received := s.received + [Request(id, kind, v.reqArg, None)])
    case ReadReqData(id, kind, arg) =>
      s.(node := Working, received := s.received + [Request(id, kind, arg, Some(v.reqData))])
    case Working => s.(node := WriteRspData(rsp), published := s.published + [rsp])
    case WriteRspData(r) => s.(vars := v.(rspData := r.data), node := WriteRspSeq(r))
    case WriteRspSeq(r) => s.(vars := v.(rspSeq := r.id), node := WriteRspStatus(r))
    case WriteRspStatus(r) => s.(vars := v.(rspStatus := r.status), node := WriteRspKind(r))
    case WriteRspKind(r) => s.(vars := v.(rspKind := r.kind), node := ReadTrigger(r))
    case ReadTrigger(r) => s.(node := WriteTrigger(r, v.rspTrigger))
    case WriteTrigger(r, trigger) =>
      s.(vars := v.(rspTrigger := trigger + 1), node := if IsPending(r) then Working else Idle)
  }

  function Run(s: System, moves: seq<Move>): System {
    if moves == [] then s else Next(Run(s, moves[..|moves| - 1]), moves[|moves| - 1])
  }

  /** Nothing in flight; the counters may hold any values. */
  predicate Quiescent(s: System) {
    && s.bridge == LoopTop && s.node == Idle && s.fired == 0
    && !s.outstanding && s.lastRsp == s.vars.rspTrigger
  }

  predicate Pristine(s: System) {
    && Quiescent(s)
    && s.cmdQ == [] && s.evtQ == []
    && s.enqueued == [] && s.dequeued == [] && s.received == [] && s.published == []
  }

  // ---------------------------------------------------------------- the invariant

  /** How far the current command has come. */
  datatype Phase = Resting | Requesting | Serving | Answering | Notified | Collecting

  predicate IsWriting(b: BridgePc) {
    || b.WriteReqData? || b.WriteReqSeq? || b.WriteReqKind? || b.WriteReqArg?
    || b.ReadReqTrigger? || b.WriteReqTrigger?
  }

  predicate IsCollecting(b: BridgePc) {
    b.ReadRspSeq? || b.ReadRspStatus? || b.ReadRspKind? || b.ReadRspData?
  }

  predicate IsPublishing(n: NodePc) {
    || n.WriteRspData? || n.WriteRspSeq? || n.WriteRspStatus? || n.WriteRspKind?
    || n.ReadTrigger? || n.WriteTrigger?
  }

  function PhaseOf(s: System): Phase {
    if IsWriting(s.bridge) then Requesting
    else if IsCollecting(s.bridge) then Collecting
    else if !s.outstanding then Resting
    else if IsPublishing(s.node) then Answering
    else if s.vars.rspTrigger != s.lastRsp then Notified
    else Serving
  }

  /** The command on its way. */
  function Current(s: System): Cmd
    requires s.dequeued != []
  {
    s.dequeued[|s.dequeued| - 1]
  }

  /** The request variables hold the command, as far as the node will look. */
  predicate Requested(v: Vars, c: Cmd) {
    v.reqSeq == c.id && v.reqKind == c.kind && v.reqArg == c.arg && (c.data.Some? ==> v.reqData == c.data.value)
  }

  predicate Answered(v: Vars, r: Evt) {
    v.rspSeq == r.id && v.rspStatus == r.status && v.rspKind == r.kind && v.rspData == r.data
  }

  /** What the bridge has written so far. */
  predicate WritesOk(s: System)
    requires s.dequeued != []
  {
    var v, c := s.vars, Current(s);
    match s.bridge
    case WriteReqData(cmd) => cmd == c && c.data.Some?
    case WriteReqSeq(cmd) => cmd == c && (c.data.Some? ==> v.reqData == c.data.value)
    case WriteReqKind(cmd) => cmd == c && (c.data.Some? ==> v.reqData == c.data.value) && v.reqSeq == c.id
    case WriteReqArg(cmd) =>
      cmd == c && (c.data.Some? ==> v.reqData == c.data.value) && v.reqSeq == c.id && v.reqKind == c.kind
    case ReadReqTrigger(cmd) => cmd == c && Requested(v, c)
    case WriteReqTrigger(cmd, _) => cmd == c && Requested(v, c)
    case _ => true
  }

  /** What the node has read so far, or that it is done reading. */
  predicate ReadsOk(s: System)
    requires s.dequeued != []
  {
    var c := Current(s);
    match s.node
    case Idle => s.fired == 1
    case ReadReqSeq => s.fired == 0
    case ReadReqKind(id) => s.fired == 0 && id == c.id
    case ReadReqArg(id, kind) => s.fired == 0 && id == c.id && kind == c.kind
    case ReadReqData(id, kind, arg) => s.fired == 0 && id == c.id && kind == c.kind && arg == c.arg && kind == KIND_RAW
    case Working => s.fired == 0
    case _ => false
  }

  /** What the node has published so far. */
  predicate PublishOk(s: System)
    requires s.published != []
  {
    var v, r := s.vars, s.published[|s.published| - 1];
    match s.node
    case WriteRspData(rsp) => rsp == r
    case WriteRspSeq(rsp) => rsp == r && v.rspData == r.data
    case WriteRspStatus(rsp) => rsp == r && v.rspData == r.data && v.rspSeq == r.id
    case WriteRspKind(rsp) => rsp == r && v.rspData == r.data && v.rspSeq == r.id && v.rspStatus == r.status
    case ReadTrigger(rsp) => rsp == r && Answered(v, r)
    case WriteTrigger(rsp, trigger) => rsp == r && Answered(v, r) && trigger == v.rspTrigger
    case _ => false
  }

  /** What the bridge has collected so far. */
  predicate CollectOk(s: System)
    requires s.published != []
  {
    var r := s.published[|s.published| - 1];
    Answered(s.vars, r) &&
    match s.bridge
    case ReadRspSeq => true
    case ReadRspStatus(id) => id == r.id
    case ReadRspKind(id, status) => id == r.id && status == r.status
    case ReadRspData(id, status, kind) => id == r.id && status == r.status && kind == r.kind
    case _ => false
  }

  /** The whole commands received, and the whole answers delivered, are those of the histories. */
  predicate Histories(s: System) {
    && s.dequeued + s.cmdQ == s.enqueued
    && (forall i :: 0 <= i < |s.enqueued| ==> WellFormedCmd(s.enqueued[i]))
    && |s.received| <= |s.dequeued|
    && (forall i :: 0 <= i < |s.received| ==> s.received[i] == AsRequest(s.dequeued[i]))
    && |s.evtQ| <= |s.published|
    && (forall i :: 0 <= i < |s.evtQ| ==> s.evtQ[i] == s.published[i])
    && (forall i :: 0 <= i < |s.published| ==> !IsPending(s.published[i]))
  }

  predicate NodeAsleep(s: System) {
    s.node == Idle && s.fired == 0
  }

  predicate Inv(s: System) {
    var d, r, p, e := |s.dequeued|, |s.received|, |s.published|, |s.evtQ|;
    && Histories(s)
    && match PhaseOf(s)
       case Resting => NodeAsleep(s) && d == r == p == e && s.vars.rspTrigger == s.lastRsp
       case Requesting =>
         && NodeAsleep(s) && d == r + 1 && r == p == e && s.vars.rspTrigger == s.lastRsp
         && !s.outstanding && WritesOk(s)
       case Serving =>
         && d == p + 1 && p == e && s.vars.rspTrigger == s.lastRsp
         && r == (if s.node == Working then d else p)
         && Requested(s.vars, Current(s)) && ReadsOk(s)
       case Answering =>
         && s.fired == 0 && d == r == p == e + 1 && s.vars.rspTrigger == s.lastRsp && PublishOk(s)
       case Notified =>
         && NodeAsleep(s) && d == r == p == e + 1 && s.vars.rspTrigger == s.lastRsp + 1
         && Answered(s.vars, s.published[p - 1])
       case Collecting =>
         && NodeAsleep(s) && d == r == p == e + 1 && s.vars.rspTrigger == s.lastRsp
         && !s.outstanding && CollectOk(s)
  }

  /** Clients queue well-formed commands, and the core publishes each answer once (no 78). */
  predicate Legal(m: Move) {
    match m
    case Client(c) => WellFormedCmd(c)
    case BridgeMove => true
    case NodeMove(rsp) => !IsPending(rsp)
  }

  lemma ClientKeepsInv(s: System, c: Cmd)
    requires Inv(s) && WellFormedCmd(c)
    ensures Inv(Next(s, Client(c)))
  {
    assert s.dequeued + (s.cmdQ + [c]) == s.enqueued + [c];
  }

  lemma LoopTopKeepsInv(s: System)
    requires Inv(s) && s.bridge == LoopTop
    ensures Inv(BridgeStep(s))
  {
    if !s.outstanding && s.cmdQ != [] {
      assert s.dequeued + [s.cmdQ[0]] + s.cmdQ[1..] == s.enqueued;
      assert WellFormedCmd(s.enqueued[|s.dequeued|]);
    }
  }

  lemma WritingKeepsInv(s: System)
    requires Inv(s) && IsWriting(s.bridge)
    ensures Inv(BridgeStep(s))
  {}

  lemma CollectingKeepsInv(s: System)
    requires Inv(s) && IsCollecting(s.bridge)
    ensures Inv(BridgeStep(s))
  {}

  lemma PollKeepsInv(s: System)
    requires Inv(s) && s.bridge == ReadRspTrigger
    ensures Inv(BridgeStep(s))
  {}

  lemma BridgeKeepsInv(s: System)
    requires Inv(s)
    ensures Inv(BridgeStep(s))
  {
    if s.bridge == LoopTop {
      LoopTopKeepsInv(s);
    } else if IsWriting(s.bridge) {
      WritingKeepsInv(s);
    } else if IsCollecting(s.bridge) {
      CollectingKeepsInv(s);
    } else {
      PollKeepsInv(s);
    }
  }

  lemma PublishingKeepsInv(s: System, rsp: Evt)
    requires Inv(s) && !IsPending(rsp) && IsPublishing(s.node)
    ensures Inv(NodeStep(s, rsp))
  {}

  lemma ReadingKeepsInv(s: System, rsp: Evt)
    requires Inv(s) && !IsPending(rsp) && !IsPublishing(s.node)
    ensures Inv(NodeStep(s, rsp))
  {
    if s.dequeued != [] {
      assert Current(s) == s.enqueued[|s.dequeued| - 1];
    }
  }

  lemma NodeKeepsInv(s: System, rsp: Evt)
    requires Inv(s) && !IsPending(rsp)
    ensures Inv(NodeStep(s, rsp))
  {
    if IsPublishing(s.node) {
      PublishingKeepsInv(s, rsp);
    } else {
      ReadingKeepsInv(s, rsp);
    }
  }

  lemma {:induction false} EveryRunKeepsInv(s: System, moves: seq<Move>)
    requires Pristine(s) && forall i :: 0 <= i < |moves| ==> Legal(moves[i])
    ensures Inv(Run(s, moves))
    decreases |moves|
  {
    if moves != [] {
      var front, last := moves[..|moves| - 1], moves[|moves| - 1];
      EveryRunKeepsInv(s, front);
      match last
      case Client(c) => ClientKeepsInv(Run(s, front), c);
      case BridgeMove => BridgeKeepsInv(Run(s, front));
      case NodeMove(rsp) => NodeKeepsInv(Run(s, front), rsp);
    }
  }

  // ---------------------------------------------------------------- main result

  /**
   In every interleaving: commands are taken in FIFO order, what the node reads is exactly the commands
   taken, what the bridge delivers is exactly the published answers, both in order; the trigger is ahead
   by at most one, and then only while a command is outstanding; and at rest nothing is missing.
   */
  lemma UntornHandshake(s: System, moves: seq<Move>)
    requires Pristine(s) && forall i :: 0 <= i < |moves| ==> Legal(moves[i])
    ensures var t := Run(s, moves);
            && t.dequeued + t.cmdQ == t.enqueued
            && |t.published| <= |t.received| <= |t.dequeued| <= |t.published| + 1
            && (forall i :: 0 <= i < |t.received| ==> t.received[i] == AsRequest(t.dequeued[i]))
            && |t.evtQ| <= |t.published| <= |t.evtQ| + 1
            && (forall i :: 0 <= i < |t.evtQ| ==> t.evtQ[i] == t.published[i])
            && 0 <= t.vars.rspTrigger - t.lastRsp <= 1
            && (t.vars.rspTrigger != t.lastRsp ==> t.outstanding)
            && (Quiescent(t) ==> |t.received| == |t.dequeued| == |t.published| && t.evtQ == t.published)
  {
    EveryRunKeepsInv(s, moves);
  }

  // ---------------------------------------------------------------- why 78 must be excluded

  function Times(s: System, m: Move, n: nat): System
    decreases n
  {
    if n == 0 then s else Times(Next(s, m), m, n - 1)
  }

  function Repeat(m: Move, n: nat): seq<Move> {
    seq(n, _ => m)
  }

  lemma RunSnoc(s: System, moves: seq<Move>, m: Move)
    ensures Run(s, moves + [m]) == Next(Run(s, moves), m)
  {
    assert (moves + [m])[..|moves|] == moves;
  }

  lemma {:induction false} RunRepeat(s: System, moves: seq<Move>, m: Move, n: nat)
    ensures Run(s, moves + Repeat(m, n)) == Times(Run(s, moves), m, n)
    decreases n
  {
    if n == 0 {
      assert moves + Repeat(m, 0) == moves;
    } else {
      RunSnoc(s, moves, m);
      RunRepeat(s, moves + [m], m, n - 1);
      assert moves + Repeat(m, n) == moves + [m] + Repeat(m, n - 1);
    }
  }

  lemma ClientQueues(s: System, c: Cmd)
    ensures Run(s, [Client(c)]) == s.(cmdQ := s.cmdQ + [c], enqueued := s.enqueued + [c])
  {
    assert [] + [Client(c)] == [Client(c)];
    RunSnoc(s, [], Client(c));
  }

  lemma {:induction false} TimesAdd(s: System, m: Move, j: nat, k: nat)
    ensures Times(s, m, j + k) == Times(Times(s, m, j), m, k)
    decreases j
  {
    if j > 0 {
      TimesAdd(Next(s, m), m, j - 1, k);
    }
  }

  /** The accesses up to writing `ReqKind`; a payload takes one more. */
  function FillMoves(c: Cmd): nat {
    if c.data.Some? then 4 else 3
  }

  /** The request variables once the bridge has written the command. */
  function Filled(v: Vars, c: Cmd): Vars {
    v.(reqData := if c.data.Some? then c.data.value else v.reqData, reqSeq := c.id, reqKind := c.kind)
  }

  lemma BridgeWrites(s: System, c: Cmd)
    requires s.bridge == WriteReqSeq(c)
    ensures Times(s, BridgeMove, 2)
            == s.(vars := s.vars.(reqSeq := c.id, reqKind := c.kind), bridge := WriteReqArg(c))
  {
    var s1 := s.(vars := s.vars.(reqSeq := c.id), bridge := WriteReqKind(c));
    assert Next(s, BridgeMove) == s1;
    assert Times(s, BridgeMove, 2) == Times(s1, BridgeMove, 1) == Next(s1, BridgeMove);
  }

  lemma BridgeDequeues(s: System, c: Cmd)
    requires s.bridge == LoopTop && !s.outstanding && s.cmdQ == [c]
    ensures Times(s, BridgeMove, FillMoves(c) - 2)
            == s.(cmdQ := [], dequeued := s.dequeued + [c], bridge := WriteReqSeq(c),
                  vars := s.vars.(reqData := if c.data.Some? then c.data.value else s.vars.reqData))
  {
    var s1 := Next(s, BridgeMove);
    if c.data.Some? {
      assert Times(s, BridgeMove, 2) == Times(s1, BridgeMove, 1) == Next(s1, BridgeMove);
    } else {
      assert Times(s, BridgeMove, 1) == s1;
    }
  }

  lemma BridgeFills(s: System, c: Cmd)
    requires s.bridge == LoopTop && !s.outstanding && s.cmdQ == [c]
    ensures Times(s, BridgeMove, FillMoves(c))
            == s.(cmdQ := [], dequeued := s.dequeued + [c], vars := Filled(s.vars, c), bridge := WriteReqArg(c))
  {
    hide Times;
    TimesAdd(s, BridgeMove, FillMoves(c) - 2, 2);
    BridgeDequeues(s, c);
    BridgeWrites(Times(s, BridgeMove, FillMoves(c) - 2), c);
  }

  lemma BridgeFires(s: System, c: Cmd)
    requires s.bridge == WriteReqArg(c)
    ensures Times(s, BridgeMove, 3)
            == s.(fired := s.fired + 1, outstanding := true, bridge := ReadRspTrigger,
                  vars := s.vars.(reqArg := c.arg, reqTrigger := s.vars.reqTrigger + 1))
  {
    var s1 := s.(vars := s.vars.(reqArg := c.arg), bridge := ReadReqTrigger(c));
    var s2 := s1.(bridge := WriteReqTrigger(c, s.vars.reqTrigger));
    assert Next(s, BridgeMove) == s1 && Next(s1, BridgeMove) == s2;
    assert Times(s, BridgeMove, 3) == Times(s1, BridgeMove, 2) == Times(s2, BridgeMove, 1) == Next(s2, BridgeMove);
  }

  /** Six or seven accesses take a command from the queue to the request variables. */
  lemma BridgeTakes(s: System, c: Cmd)
    requires s.bridge == LoopTop && !s.outstanding && s.cmdQ == [c]
    ensures Times(s, BridgeMove, FillMoves(c) + 3)
            == s.(cmdQ := [], dequeued := s.dequeued + [c], fired := s.fired + 1, outstanding := true,
                  vars := Filled(s.vars, c).(reqArg := c.arg, reqTrigger := s.vars.reqTrigger + 1),
                  bridge := ReadRspTrigger)
  {
    hide Times;
    TimesAdd(s, BridgeMove, FillMoves(c), 3);
    BridgeFills(s, c);
    BridgeFires(Times(s, BridgeMove, FillMoves(c)), c);
  }

  /** The accesses of the node up to reading `ReqArg`; a payload takes one more. */
  function ReadMoves(kind: int): nat {
    if kind == KIND_RAW then 5 else 4
  }

  /** Four or five accesses read a request. */
  lemma NodeReads(s: System, rsp: Evt)
    requires s.node == Idle && s.fired == 1
    ensures var data := if s.vars.reqKind == KIND_RAW then Some(s.vars.reqData) else None;
            Times(s, NodeMove(rsp), ReadMoves(s.vars.reqKind))
            == s.(fired := 0, node := Working,
                  received := s.received + [Request(s.vars.reqSeq, s.vars.reqKind, s.vars.reqArg, data)])
  {
    var m := NodeMove(rsp);
    var s1 := s.(fired := 0, node := ReadReqSeq);
    var s2 := s1.(node := ReadReqKind(s.vars.reqSeq));
    var s3 := s2.(node := ReadReqArg(s.vars.reqSeq, s.vars.reqKind));
    var s4 := Next(s3, m);
    assert Next(s, m) == s1 && Next(s1, m) == s2 && Next(s2, m) == s3;
    if s.vars.reqKind == KIND_RAW {
      assert s4 == s3.(node := ReadReqData(s.vars.reqSeq, s.vars.reqKind, s.vars.reqArg));
      assert Times(s, m, 5) == Times(s1, m, 4) == Times(s2, m, 3) == Times(s3, m, 2) == Times(s4, m, 1) == Next(s4, m);
    } else {
      assert Times(s, m, 4) == Times(s1, m, 3) == Times(s2, m, 2) == Times(s3, m, 1) == s4;
    }
  }

  lemma NodeStartsPublish(s: System, rsp: Evt)
    requires s.node == Working
    ensures Times(s, NodeMove(rsp), 3)
            == s.(published := s.published + [rsp], vars := s.vars.(rspData := rsp.data, rspSeq := rsp.id),
                  node := WriteRspStatus(rsp))
  {
    var m := NodeMove(rsp);
    var s1 := s.(published := s.published + [rsp], node := WriteRspData(rsp));
    var s2 := s1.(vars := s1.vars.(rspData := rsp.data), node := WriteRspSeq(rsp));
    assert Next(s, m) == s1 && Next(s1, m) == s2;
    assert Times(s, m, 3) == Times(s1, m, 2) == Times(s2, m, 1) == Next(s2, m);
  }

  lemma NodeEndsPublish(s: System, rsp: Evt)
    requires s.node == WriteRspStatus(rsp)
    ensures Times(s, NodeMove(rsp), 4)
            == s.(vars := s.vars.(rspStatus := rsp.status, rspKind := rsp.kind, rspTrigger := s.vars.rspTrigger + 1),
                  node := if IsPending(rsp) then Working else Idle)
  {
    var m := NodeMove(rsp);
    var s1 := s.(vars := s.vars.(rspStatus := rsp.status), node := WriteRspKind(rsp));
    var s2 := s1.(vars := s1.vars.(rspKind := rsp.kind), node := ReadTrigger(rsp));
    var s3 := s2.(node := WriteTrigger(rsp, s2.vars.rspTrigger));
    assert Next(s, m) == s1 && Next(s1, m) == s2 && Next(s2, m) == s3;
    assert Times(s, m, 4) == Times(s1, m, 3) == Times(s2, m, 2) == Times(s3, m, 1) == Next(s3, m);
  }

  /** Seven accesses publish an answer; after a response-pending the node works on. */
  lemma NodePublishes(s: System, rsp: Evt)
    requires s.node == Working
    ensures Times(s, NodeMove(rsp), 7)
            == s.(published := s.published + [rsp],
                  vars := s.vars.(rspData := rsp.data, rspSeq := rsp.id, rspStatus := rsp.status, rspKind := rsp.kind,
                                  rspTrigger := s.vars.rspTrigger + 1),
                  node := if IsPending(rsp) then Working else Idle)
  {
    TimesAdd(s, NodeMove(rsp), 3, 4);
    NodeStartsPublish(s, rsp);
    NodeEndsPublish(Times(s, NodeMove(rsp), 3), rsp);
  }

  /** The tear: three reads by the bridge, two steps of the next publish, two reads by the bridge. */
  lemma BridgeCollectsTorn(s: System, rsp: Evt)
    requires s.bridge == ReadRspTrigger && s.vars.rspTrigger != s.lastRsp && s.node == Working
    ensures var t := Times(Times(Times(s, BridgeMove, 3), NodeMove(rsp), 2), BridgeMove, 2);
            && t.evtQ == s.evtQ + [Evt(s.vars.rspSeq, s.vars.rspStatus, s.vars.rspKind, rsp.data)]
            && t.published == s.published + [rsp]
  {
    var s1 := s.(lastRsp := s.vars.rspTrigger, outstanding := false, bridge := ReadRspSeq);
    var s2 := s1.(bridge := ReadRspStatus(s.vars.rspSeq));
    var s3 := s2.(bridge := ReadRspKind(s.vars.rspSeq, s.vars.rspStatus));
    assert Next(s, BridgeMove) == s1 && Next(s1, BridgeMove) == s2 && Next(s2, BridgeMove) == s3;
    assert Times(s, BridgeMove, 3) == Times(s1, BridgeMove, 2) == Times(s2, BridgeMove, 1) == s3;
    var m := NodeMove(rsp);
    var s4 := s3.(published := s.published + [rsp], node := WriteRspData(rsp));
    var s5 := s4.(vars := s.vars.(rspData := rsp.data), node := WriteRspSeq(rsp));
    assert Next(s3, m) == s4 && Next(s4, m) == s5;
    assert Times(s3, m, 2) == Times(s4, m, 1) == s5;
    var s6 := s5.(bridge := ReadRspData(s.vars.rspSeq, s.vars.rspStatus, s.vars.rspKind));
    assert Next(s5, BridgeMove) == s6;
    assert Times(s5, BridgeMove, 2) == Times(s6, BridgeMove, 1) == Next(s6, BridgeMove);
  }

  /** A command is taken and read, and a response-pending is published before the bridge polls again. */
  function PendingMoves(c: Cmd, pending: Evt): seq<Move> {
    [Client(c)] + Repeat(BridgeMove, FillMoves(c) + 3)
    + Repeat(NodeMove(pending), ReadMoves(c.kind)) + Repeat(NodeMove(pending), 7)
  }

  lemma PendingIsPublished(s: System, c: Cmd, pending: Evt)
    requires Pristine(s) && WellFormedCmd(c) && IsPending(pending)
    ensures var t := Run(s, PendingMoves(c, pending));
            && t.bridge == ReadRspTrigger && t.node == Working && t.fired == 0 && t.outstanding
            && t.vars.rspTrigger == t.lastRsp + 1 && Answered(t.vars, pending)
            && t.published == [pending] && t.evtQ == [] && t.cmdQ == []
  {
    hide Run, Next, Times, Repeat;
    ClientQueues(s, c);
    var m0 := [Client(c)];
    var s0 := Run(s, m0);
    RunRepeat(s, m0, BridgeMove, FillMoves(c) + 3);
    BridgeTakes(s0, c);
    var m1, s1 := m0 + Repeat(BridgeMove, FillMoves(c) + 3), Times(s0, BridgeMove, FillMoves(c) + 3);
    RunRepeat(s, m1, NodeMove(pending), ReadMoves(c.kind));
    NodeReads(s1, pending);
    var m2, s2 := m1 + Repeat(NodeMove(pending), ReadMoves(c.kind)), Times(s1, NodeMove(pending), ReadMoves(c.kind));
    RunRepeat(s, m2, NodeMove(pending), 7);
    NodePublishes(s2, pending);
  }

  /** ...and a final answer, scheduled so that the latter tears the former. */
  function TearingMoves(c: Cmd, pending: Evt, final: Evt): seq<Move> {
    PendingMoves(c, pending) + Repeat(BridgeMove, 3) + Repeat(NodeMove(final), 2) + Repeat(BridgeMove, 2)
  }

  lemma TornEvent(s: System, c: Cmd, pending: Evt, final: Evt)
    requires Pristine(s) && WellFormedCmd(c)
    requires IsPending(pending) && !IsPending(final) && final.data != pending.data && final.status != pending.status
    ensures var t := Run(s, TearingMoves(c, pending, final));
            && t.published == [pending, final]
            && t.evtQ == [Evt(pending.id, pending.status, pending.kind, final.data)]
            && t.evtQ[0] !in t.published
  {
    hide Run, Next, Times, Repeat, PendingMoves;
    PendingIsPublished(s, c, pending);
    var m3 := PendingMoves(c, pending);
    RunRepeat(s, m3, BridgeMove, 3);
    var m4 := m3 + Repeat(BridgeMove, 3);
    RunRepeat(s, m4, NodeMove(final), 2);
    var m5 := m4 + Repeat(NodeMove(final), 2);
    RunRepeat(s, m5, BridgeMove, 2);
    BridgeCollectsTorn(Run(s, m3), final);
  }

  /** Four accesses collect what the response variables hold. */
  lemma BridgeCollects(s: System)
    requires s.bridge == ReadRspSeq
    ensures Times(s, BridgeMove, 4) == s.(evtQ := s.evtQ + [Held(s.vars)], bridge := LoopTop)
  {
    var s1 := s.(bridge := ReadRspStatus(s.vars.rspSeq));
    var s2 := s1.(bridge := ReadRspKind(s.vars.rspSeq, s.vars.rspStatus));
    var s3 := s2.(bridge := ReadRspData(s.vars.rspSeq, s.vars.rspStatus, s.vars.rspKind));
    assert Next(s, BridgeMove) == s1 && Next(s1, BridgeMove) == s2 && Next(s2, BridgeMove) == s3;
    assert Times(s, BridgeMove, 4) == Times(s1, BridgeMove, 3) == Times(s2, BridgeMove, 2) == Times(s3, BridgeMove, 1)
        == Next(s3, BridgeMove);
  }

  function Held(v: Vars): Evt {
    Evt(v.rspSeq, v.rspStatus, v.rspKind, v.rspData)
  }

  lemma BridgeNotices(s: System)
    requires s.bridge == ReadRspTrigger && s.vars.rspTrigger != s.lastRsp
    ensures Times(s, BridgeMove, 1) == s.(lastRsp := s.vars.rspTrigger, outstanding := false, bridge := ReadRspSeq)
  {
    assert Times(s, BridgeMove, 1) == Next(s, BridgeMove);
  }

  lemma BridgePollsIdle(s: System)
    requires s.bridge == LoopTop && s.cmdQ == []
    ensures Times(s, BridgeMove, 1) == s.(bridge := ReadRspTrigger)
  {
    assert Times(s, BridgeMove, 1) == Next(s, BridgeMove);
  }

  /** The bridge notices the response-pending, the node overwrites it whole, and the bridge collects twice. */
  function DoublingMoves(c: Cmd, pending: Evt, final: Evt): seq<Move> {
    PendingMoves(c, pending) + Repeat(BridgeMove, 1) + Repeat(NodeMove(final), 7)
    + Repeat(BridgeMove, 4) + Repeat(BridgeMove, 1) + Repeat(BridgeMove, 1) + Repeat(BridgeMove, 4)
  }

  lemma DoubledAnswer(s: System, c: Cmd, pending: Evt, final: Evt)
    requires Pristine(s) && WellFormedCmd(c) && IsPending(pending) && !IsPending(final)
    ensures var t := Run(s, DoublingMoves(c, pending, final));
            && t.published == [pending, final] && t.evtQ == [final, final]
            && pending !in t.evtQ && Quiescent(t)
  {
    hide Run, Next, Times, Repeat, PendingMoves;
    PendingIsPublished(s, c, pending);
    var m0 := PendingMoves(c, pending);
    var s0 := Run(s, m0);
    RunRepeat(s, m0, BridgeMove, 1);
    BridgeNotices(s0);
    var m1, s1 := m0 + Repeat(BridgeMove, 1), Times(s0, BridgeMove, 1);
    RunRepeat(s, m1, NodeMove(final), 7);
    NodePublishes(s1, final);
    var m2, s2 := m1 + Repeat(NodeMove(final), 7), Times(s1, NodeMove(final), 7);
    RunRepeat(s, m2, BridgeMove, 4);
    BridgeCollects(s2);
    var m3, s3 := m2 + Repeat(BridgeMove, 4), Times(s2, BridgeMove, 4);
    RunRepeat(s, m3, BridgeMove, 1);
    BridgePollsIdle(s3);
    var m4, s4 := m3 + Repeat(BridgeMove, 1), Times(s3, BridgeMove, 1);
    RunRepeat(s, m4, BridgeMove, 1);
    BridgeNotices(s4);
    var m5, s5 := m4 + Repeat(BridgeMove, 1), Times(s4, BridgeMove, 1);
    RunRepeat(s, m5, BridgeMove, 4);
    BridgeCollects(s5);
  }

  /** The core once it was handed a command and then two ECU frames, and what it publishes for each. */
  function Asked(core: Capl.Core, c: Cmd): Capl.Core {
    Capl.OnReqTrigger(core, c.id, c.kind, c.arg, if c.data.Some? then c.data.value else []).0
  }

  function FirstAnswer(core: Capl.Core, c: Cmd, first: Bytes, keygen: Capl.KeyGen): (Capl.Core, seq<Capl.Output>) {
    Capl.OnDiagResponse(Asked(core, c), first, keygen)
  }

  function SecondAnswer(core: Capl.Core, c: Cmd, first: Bytes, second: Bytes, keygen: Capl.KeyGen): Capl.Output {
    var outs := Capl.OnDiagResponse(FirstAnswer(core, c, first, keygen).0, second, keygen).1;
    if outs == [] then Capl.Transmit([]) else outs[0]
  }

  predicate IsPendingFrame(frame: Bytes) {
    |frame| >= 3 && frame[0] == 0x7F && frame[2] == 0x78
  }

  lemma CoreAnswers(core: Capl.Core, c: Cmd, first: Bytes, second: Bytes, keygen: Capl.KeyGen)
    requires WellFormedCmd(c) && !IsTp(c.kind) && IsPendingFrame(first) && !IsPendingFrame(second)
    requires SecondAnswer(core, c, first, second, keygen).Publish?
    ensures var pending, final := PendingOf(c, first), SecondAnswer(core, c, first, second, keygen).evt;
            && FirstAnswer(core, c, first, keygen).1 == [Capl.Publish(pending)]
            && IsPending(pending) && !IsPending(final)
            && (!Capl.IsNegative(second) ==> final.data != pending.data && final.status != pending.status)
  {}

  function PendingOf(c: Cmd, first: Bytes): Evt {
    Evt(c.id, STATUS_NEGATIVE, c.kind, Capl.Clip(first, Capl.MAX_LEN))
  }

  /**
   With a response-pending the handshake does tear. Whenever the ECU answers a command first with a 78 and
   then with a positive frame that the core publishes, the node may write the latter while the bridge
   collects the former, and the client gets an event nobody published.
   */
  lemma PendingTearsAnEvent(s: System, core: Capl.Core, c: Cmd, first: Bytes, second: Bytes, keygen: Capl.KeyGen)
    requires Pristine(s) && WellFormedCmd(c) && !IsTp(c.kind)
    requires IsPendingFrame(first) && !Capl.IsNegative(second)
    requires SecondAnswer(core, c, first, second, keygen).Publish?
    ensures var pending, final := PendingOf(c, first), SecondAnswer(core, c, first, second, keygen).evt;
            var t := Run(s, TearingMoves(c, pending, final));
            && FirstAnswer(core, c, first, keygen).1 == [Capl.Publish(pending)]
            && t.published == [pending, final]
            && t.evtQ == [Evt(pending.id, pending.status, pending.kind, final.data)]
            && t.evtQ[0] !in t.published
  {
    hide FirstAnswer, SecondAnswer, Run, TearingMoves, IsPending;
    CoreAnswers(core, c, first, second, keygen);
    TornEvent(s, c, PendingOf(c, first), SecondAnswer(core, c, first, second, keygen).evt);
  }

  /**
   Nor is "none lost or repeated" kept, whatever the second frame (a negative one included): the bridge may
   lose the response-pending altogether and deliver the final answer twice.
   */
  lemma PendingDoublesTheAnswer(s: System, core: Capl.Core, c: Cmd, first: Bytes, second: Bytes, keygen: Capl.KeyGen)
    requires Pristine(s) && WellFormedCmd(c) && !IsTp(c.kind)
    requires IsPendingFrame(first) && !IsPendingFrame(second)
    requires SecondAnswer(core, c, first, second, keygen).Publish?
    ensures var pending, final := PendingOf(c, first), SecondAnswer(core, c, first, second, keygen).evt;
            var t := Run(s, DoublingMoves(c, pending, final));
            && FirstAnswer(core, c, first, keygen).1 == [Capl.Publish(pending)]
            && t.published == [pending, final] && t.evtQ == [final, final]
            && pending !in t.evtQ && Quiescent(t)
  {
    hide FirstAnswer, SecondAnswer, Run, DoublingMoves, IsPending;
    CoreAnswers(core, c, first, second, keygen);
    DoubledAnswer(s, c, PendingOf(c, first), SecondAnswer(core, c, first, second, keygen).evt);
  }
}
