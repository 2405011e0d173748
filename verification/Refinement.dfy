/**
 `FakeVectorCom` claims to simulate the CAPL node. Here the event-driven node is run against the same
 ECU, injections and key function, frame by frame, and compared with the direct-style double: the
 wire lines and the ECU agree for every command except in exactly three families.
 */
module Refinement {
  import opened Base
  import opened Wire
  import opened MockEcu
  import opened Bridge
  import opened Capl

  /** The node, the ECU, the answers still on the bus, and what was published. */
  datatype Bench = Bench(core: Core, ecu: EcuState, inbox: seq<Bytes>, pubs: seq<Evt>)

  /** The mock's key algorithm in the role of the seed-key DLL. */
  function MockKey(seed: Bytes, level: Byte): Option<Bytes> {
    Some(TestKey(seed))
  }

  /** A request reaches the ECU, injections included: the frames it answers with, in order. */
  function Receive(e: EcuState, req: Bytes): (EcuState, seq<Bytes>) {
    if e.injectDrop then (e.(injectDrop := false), [])
    else
      var pending := if e.injectPending && req != [] then [[0x7F, req[0], 0x78]] else [];
      var (after, answer) := Handle(e.(injectPending := false), req);
      (after, pending + if answer.Reply? then [answer.rsp] else [])
  }

  /** Perform the outputs of a handler. */
  function Feed(b: Bench, core: Core, outs: seq<Output>): Bench {
    if outs == [] then b.(core := core)
    else
      var last := outs[|outs| - 1];
      var before := Feed(b, core, outs[..|outs| - 1]);
      match last
      case Publish(v) => before.(pubs := before.pubs + [v])
      case Transmit(frame) =>
        var (after, frames) := Receive(before.ecu, frame);
        before.(ecu := after, inbox := before.inbox + frames)
  }

  predicate Settled(b: Bench) {
    b.inbox == [] && !b.core.armed
  }

  /** The next event: the oldest answer arrives, or the ECU stays silent and the watchdog fires. */
  function Tick(b: Bench): Bench {
    if b.inbox != [] then
      var (core, outs) := OnDiagResponse(b.core, b.inbox[0], MockKey);
      Feed(b.(inbox := b.inbox[1..]), core, outs)
    else
      var (core, outs) := OnTimeout(b.core);
      Feed(b, core, outs)
  }

  function Settle(b: Bench, n: nat): Bench
    decreases n
  {
    if n == 0 || Settled(b) then b else Settle(Tick(b), n - 1)
  }

  /** One command through the node, for at most `n` events. */
  function CaplDispatch(core: Core, e: EcuState, c: Cmd, n: nat): Bench {
    Settle(Begin(core, e, c), n)
  }

  function Begin(core: Core, e: EcuState, c: Cmd): Bench {
    var (after, outs) := OnReqTrigger(core, c.id, c.kind, c.arg, if c.data.Some? then c.data.value else []);
    Feed(Bench(core, e, [], []), after, outs)
  }

  /** The node truncates nothing: request and answer fit its frame buffer, and the seed its key buffer. */
  predicate FitsNode(e: EcuState, c: Cmd)
    requires WellFormedCmd(c)
  {
    && (c.kind == KIND_RAW ==> |c.data.value| <= MAX_LEN)
    && (c.kind == KIND_SECURITY ==> 0 < |e.seed| <= KEY_BUFFER)
    && (!IsTp(c.kind) && !e.injectDrop ==>
          var answer := Handle(e.(injectPending := false), RequestBytes(c)).1;
          answer.Reply? ==> |answer.rsp| <= MAX_LEN)
  }

  /** The node is idle and any leftover security state is older than the command. */
  predicate Ready(core: Core, id: int) {
    !core.armed && (core.secActive ==> core.secSeq < id)
  }

  /**
   The commands on which double and node part: a suppressed TesterPresent (the node times out), level
   FF (the double overflows), and an injected 78 (terminal for the double only).
   */
  predicate Diverges(e: EcuState, c: Cmd)
    requires WellFormedCmd(c)
  {
    && !IsTp(c.kind) && !e.injectDrop
    && (e.injectNrc == Some(0x78) || Unanswered(e, c))
  }

  // ---------------------------------------------------------------- single events

  lemma FeedPublish(b: Bench, core: Core, v: Evt)
    ensures Feed(b, core, [Publish(v)]) == b.(core := core, pubs := b.pubs + [v])
  {
    assert [Publish(v)][..0] == [];
  }

  lemma FeedTransmit(b: Bench, core: Core, frame: Bytes)
    ensures var (after, frames) := Receive(b.ecu, frame);
            Feed(b, core, [Transmit(frame)]) == b.(core := core, ecu := after, inbox := b.inbox + frames)
  {
    assert [Transmit(frame)][..0] == [];
  }

  /** A silent ECU: the watchdog publishes the timeout and the bench settles. */
  lemma SilenceSettles(b: Bench, n: nat)
    requires b.inbox == [] && b.core.armed && n >= 1
    ensures Settle(b, n) == Bench(EndSecurity(b.core.(armed := false)), b.ecu, [],
                                  b.pubs + [Evt(b.core.reqSeq, STATUS_ERR_TIMEOUT, b.core.reqKind, [0x7F, 0x00, 0x00])])
  {
    var (core, outs) := OnTimeout(b.core);
    FeedPublish(b, core, outs[0].evt);
    assert outs == [Publish(outs[0].evt)];
    assert Settled(Tick(b));
  }

  /** A response-pending frame is published and leaves the node as it was. */
  lemma PendingTick(b: Bench, sid: Byte, rest: seq<Bytes>)
    requires b.inbox == [[0x7F, sid, 0x78]] + rest && b.core.armed
    ensures Tick(b) == b.(inbox := rest,
                          pubs := b.pubs + [Evt(b.core.reqSeq, STATUS_NEGATIVE, b.core.reqKind, [0x7F, sid, 0x78])])
  {
    var (core, outs) := OnDiagResponse(b.core, b.inbox[0], MockKey);
    FeedPublish(b.(inbox := rest), core, outs[0].evt);
    assert outs == [Publish(outs[0].evt)];
    assert b.inbox[1..] == rest;
  }

  /** The answer is not the seed or the unlock message of the current SECURITY command. */
  predicate Plain(core: Core, frame: Bytes) {
    && frame != [] && |frame| <= MAX_LEN
    && (IsNegative(frame) ==> |frame| == 3 && frame[2] != 0x78)
    && (core.reqKind == KIND_SECURITY ==> IsNegative(frame))
  }

  /** A plain answer is published as it is and the bench settles. */
  lemma PlainAnswerSettles(b: Bench, frame: Bytes, n: nat)
    requires b.inbox == [frame] && Plain(b.core, frame) && b.core.armed && n >= 1
    ensures var s := Settle(b, n);
            && Settled(s) && s.ecu == b.ecu
            && s.pubs == b.pubs + [Evt(b.core.reqSeq, if IsNegative(frame) then STATUS_NEGATIVE else STATUS_POSITIVE,
                                       b.core.reqKind, frame)]
            && (s.core.secActive ==> b.core.secActive) && s.core.secSeq == b.core.secSeq
  {
    var (core, outs) := OnDiagResponse(b.core, frame, MockKey);
    FeedPublish(b.(inbox := []), core, outs[0].evt);
    assert outs == [Publish(outs[0].evt)];
    assert b.inbox[1..] == [];
    assert Settled(Tick(b));
  }

  // ---------------------------------------------------------------- plain UDS commands

  /** What the trigger of a non-TP command does: arm, remember, send. */
  lemma BeginSends(core: Core, e: EcuState, c: Cmd)
    requires WellFormedCmd(c) && !IsTp(c.kind) && FitsNode(e, c)
    ensures var b := Begin(core, e, c);
            var (after, frames) := Receive(e, RequestBytes(c));
            && b.ecu == after && b.inbox == frames && b.pubs == []
            && b.core.armed && b.core.reqSeq == c.id && b.core.reqKind == c.kind
            && (c.kind == KIND_SECURITY ==> b.core.secActive && b.core.secSeq == c.id && b.core.secLevel == c.arg)
            && (c.kind != KIND_SECURITY ==> b.core.secActive == core.secActive && b.core.secSeq == core.secSeq)
  {
    var (after, outs) := OnReqTrigger(core, c.id, c.kind, c.arg, if c.data.Some? then c.data.value else []);
    FeedTransmit(Bench(core, e, [], []), after, RequestBytes(c));
    assert outs == [Transmit(RequestBytes(c))];
  }

  /** The bench once a response-pending injection has been dealt with. */
  function PastPending(b: Bench, e: EcuState, sid: Byte, rest: seq<Bytes>): Bench {
    b.(inbox := rest, pubs := b.pubs + PendingEvents(e, b.core.reqSeq, b.core.reqKind, sid))
  }

  lemma SettlePending(b: Bench, e: EcuState, sid: Byte, rest: seq<Bytes>, n: nat)
    requires b.core.armed && b.inbox == (if e.injectPending then [[0x7F, sid, 0x78]] else []) + rest
    ensures Settle(b, n + 1) == Settle(PastPending(b, e, sid, rest), if e.injectPending then n else n + 1)
  {
    if e.injectPending {
      PendingTick(b, sid, rest);
    } else {
      assert b.pubs + [] == b.pubs && b.inbox == rest;
    }
  }

  /** Node and double agree on a command: same lines, same ECU, and the node is idle again. */
  predicate Agrees(b: Bench, e: EcuState, c: Cmd) {
    && Settled(b)
    && b.ecu == FakeDispatch(e, c, false).0
    && Lines(b.pubs) == Lines(FakeDispatch(e, c, false).1)
    && (b.core.secActive ==> b.core.secSeq <= c.id)
  }

  lemma TpAgrees(core: Core, e: EcuState, c: Cmd, n: nat)
    requires WellFormedCmd(c) && IsTp(c.kind) && Ready(core, c.id)
    ensures Agrees(CaplDispatch(core, e, c, n), e, c)
  {
    var v := Evt(c.id, STATUS_OK, c.kind, []);
    FeedPublish(Bench(core, e, [], []), core, v);
    assert OnReqTrigger(core, c.id, c.kind, c.arg, []).1 == [Publish(v)];
    assert Begin(core, e, c) == Bench(core, e, [], [v]);
  }

  lemma DroppedAgrees(core: Core, e: EcuState, c: Cmd, n: nat)
    requires WellFormedCmd(c) && !IsTp(c.kind) && Ready(core, c.id) && FitsNode(e, c)
    requires e.injectDrop && n >= 1
    ensures Agrees(CaplDispatch(core, e, c, n), e, c)
  {
    BeginSends(core, e, c);
    SilenceSettles(Begin(core, e, c), n);
    DroppedEvents(e, c);
  }

  lemma DroppedEvents(e: EcuState, c: Cmd)
    requires WellFormedCmd(c) && !IsTp(c.kind) && e.injectDrop
    ensures FakeDispatch(e, c, false) == (e.(injectDrop := false), [Evt(c.id, STATUS_ERR_TIMEOUT, c.kind, [])])
  {}

  /** The double's events for a request answered by one plain frame. */
  lemma PlainEvents(e: EcuState, c: Cmd, after: EcuState, rsp: Bytes)
    requires WellFormedCmd(c) && !IsTp(c.kind) && !e.injectDrop
    requires Handle(e.(injectPending := false), RequestBytes(c)) == (after, Reply(rsp)) && rsp != []
    requires c.kind == KIND_SECURITY ==> |rsp| == 3 && rsp[0] == 0x7F && rsp[1] == 0x27
    ensures FakeDispatch(e, c, false)
            == (after, Preamble(e, c) + [Evt(c.id, if rsp[0] == 0x7F then STATUS_NEGATIVE else STATUS_POSITIVE,
                                             c.kind, rsp)])
  {
    assert c.kind == KIND_SECURITY ==> rsp == [0x7F, 0x27, rsp[2]];
  }

  /** A request answered by one plain frame, possibly after a response-pending. */
  lemma PlainAgrees(core: Core, e: EcuState, c: Cmd, after: EcuState, rsp: Bytes, n: nat)
    requires WellFormedCmd(c) && !IsTp(c.kind) && Ready(core, c.id) && FitsNode(e, c) && !e.injectDrop
    requires Handle(e.(injectPending := false), RequestBytes(c)) == (after, Reply(rsp))
    requires Plain(core.(reqKind := c.kind), rsp) && n >= 2
    requires c.kind == KIND_SECURITY ==> |rsp| == 3 && rsp[0] == 0x7F && rsp[1] == 0x27
    ensures Agrees(CaplDispatch(core, e, c, n), e, c)
  {
    hide Begin, Settle, FakeDispatch, Handle;
    var b := Begin(core, e, c);
    BeginSends(core, e, c);
    SettlePending(b, e, RequestBytes(c)[0], [rsp], n - 1);
    var p := PastPending(b, e, RequestBytes(c)[0], [rsp]);
    PlainAnswerSettles(p, rsp, if e.injectPending then n - 1 else n);
    PlainEvents(e, c, after, rsp);
    assert [] + Preamble(e, c) == Preamble(e, c);
  }

  lemma UdsAgrees(core: Core, e: EcuState, c: Cmd, n: nat)
    requires WellFormedCmd(c) && !IsTp(c.kind) && c.kind != KIND_SECURITY
    requires Ready(core, c.id) && FitsNode(e, c) && !e.injectDrop && !Diverges(e, c) && n >= 2
    ensures Agrees(CaplDispatch(core, e, c, n), e, c)
  {
    var (after, answer) := Handle(e.(injectPending := false), RequestBytes(c));
    AnswerKinds(e, RequestBytes(c));
    NonTesterPresentAnswers(e, c);
    PlainAgrees(core, e, c, after, answer.rsp, n);
  }

  lemma NonTesterPresentAnswers(e: EcuState, c: Cmd)
    requires WellFormedCmd(c) && !IsTp(c.kind) && c.kind != KIND_SECURITY && !e.injectDrop && !Diverges(e, c)
    ensures Handle(e.(injectPending := false), RequestBytes(c)).1.Reply?
  {
    AnswerKinds(e, RequestBytes(c));
  }

  // ---------------------------------------------------------------- SECURITY

  /** The seed arrives: the node asks the key function and sends the key, which unlocks the ECU. */
  lemma SeedTick(b: Bench, level: Byte)
    requires NothingInjected(b.ecu) && 0 < |b.ecu.seed| <= KEY_BUFFER
    requires IsOdd(level) && b.ecu.pendingSeedLevel == Some(level)
    requires b.inbox == [[0x67, level] + b.ecu.seed]
    requires b.core.armed && b.core.secActive && b.core.secSeq == b.core.reqSeq
    requires b.core.reqKind == KIND_SECURITY && b.core.secLevel == level
    ensures Tick(b) == b.(ecu := b.ecu.(unlocked := true, pendingSeedLevel := None),
                          inbox := [[0x67, ToByte(level + 1)]])
  {
    var frame := [0x67, level] + b.ecu.seed;
    assert b.inbox[1..] == [] && b.inbox[0] == frame;
    assert Clip(frame, MAX_LEN) == frame && frame[2..] == b.ecu.seed;
    var req := [0x27, ToByte(level + 1)] + TestKey(b.ecu.seed);
    assert OnDiagResponse(b.core, frame, MockKey) == (b.core, [Transmit(req)]);
    FeedTransmit(b.(inbox := []), b.core, req);
    RightKeyUnlocks(b.ecu, level);
  }

  lemma RightKeyUnlocks(e: EcuState, level: Byte)
    requires NothingInjected(e) && IsOdd(level) && e.pendingSeedLevel == Some(level)
    ensures Receive(e, [0x27, ToByte(level + 1)] + TestKey(e.seed))
            == (e.(unlocked := true, pendingSeedLevel := None), [[0x67, ToByte(level + 1)]])
  {
    var req := [0x27, ToByte(level + 1)] + TestKey(e.seed);
    assert req[2..] == TestKey(e.seed);
    assert e.(injectPending := false) == e;
    assert Handle(e, req) == (e.(unlocked := true, pendingSeedLevel := None), Reply([0x67, ToByte(level + 1)]));
    assert [] + [[0x67, ToByte(level + 1)]] == [[0x67, ToByte(level + 1)]];
  }

  /** The unlock message arrives: the node publishes OK and settles. */
  lemma UnlockSettles(b: Bench, level: Byte, n: nat)
    requires b.inbox == [[0x67, ToByte(level + 1)]] && n >= 1
    requires b.core.armed && b.core.secActive && b.core.secSeq == b.core.reqSeq
    requires b.core.reqKind == KIND_SECURITY && b.core.secLevel == level
    ensures Settle(b, n) == Bench(b.core.(armed := false, secActive := false), b.ecu, [],
                                  b.pubs + [Evt(b.core.reqSeq, STATUS_OK, KIND_SECURITY, [0x67, ToByte(level + 1)])])
  {
    var frame := [0x67, ToByte(level + 1)];
    var core := b.core.(armed := false, secActive := false);
    var v := Evt(b.core.reqSeq, STATUS_OK, KIND_SECURITY, frame);
    assert OnDiagResponse(b.core, frame, MockKey) == (core, [Publish(v)]);
    FeedPublish(b.(inbox := []), core, v);
    assert b.inbox[1..] == [];
    assert Settled(Tick(b));
  }

  lemma SeedIsIssued(e: EcuState, level: Byte)
    requires IsOdd(level) && !e.injectDrop && e.injectNrc.None?
    ensures Receive(e, [0x27, level])
            == (e.(injectPending := false, pendingSeedLevel := Some(level)),
                (if e.injectPending then [[0x7F, 0x27, 0x78]] else []) + [[0x67, level] + e.seed])
  {
    var quiet := e.(injectPending := false);
    assert Handle(quiet, [0x27, level]) == (quiet.(pendingSeedLevel := Some(level)), Reply([0x67, level] + e.seed));
  }

  /** The bench when the seed is the next frame to arrive. */
  lemma SeedArrives(core: Core, e: EcuState, c: Cmd, n: nat)
    requires WellFormedCmd(c) && c.kind == KIND_SECURITY && IsOdd(c.arg) && FitsNode(e, c)
    requires !e.injectDrop && e.injectNrc.None? && n >= 1
    ensures var p := PastPending(Begin(core, e, c), e, 0x27, [[0x67, c.arg] + e.seed]);
            && CaplDispatch(core, e, c, n) == Settle(p, if e.injectPending then n - 1 else n)
            && p.ecu == e.(injectPending := false, pendingSeedLevel := Some(c.arg))
            && p.pubs == Preamble(e, c)
            && p.core.armed && p.core.secActive && p.core.secSeq == p.core.reqSeq == c.id
            && p.core.reqKind == KIND_SECURITY && p.core.secLevel == c.arg
  {
    hide Begin, Settle, Receive, Handle;
    BeginSends(core, e, c);
    SeedIsIssued(e, c.arg);
    SettlePending(Begin(core, e, c), e, 0x27, [[0x67, c.arg] + e.seed], n - 1);
    assert [] + Preamble(e, c) == Preamble(e, c);
  }

  /** An odd level through the node: seed, key, OK, whatever the level (FF wraps to 00). */
  lemma OddLevelSettles(core: Core, e: EcuState, c: Cmd, n: nat)
    requires WellFormedCmd(c) && c.kind == KIND_SECURITY && IsOdd(c.arg) && FitsNode(e, c)
    requires !e.injectDrop && e.injectNrc.None? && n >= 3
    ensures var b := CaplDispatch(core, e, c, n);
            && Settled(b) && !b.core.secActive
            && b.ecu == e.(injectPending := false, unlocked := true, pendingSeedLevel := None)
            && b.pubs == Preamble(e, c) + [Evt(c.id, STATUS_OK, KIND_SECURITY, [0x67, ToByte(c.arg + 1)])]
  {
    hide Begin, Receive, Handle, TestKey, Tick;
    SeedArrives(core, e, c, n);
    var p := PastPending(Begin(core, e, c), e, 0x27, [[0x67, c.arg] + e.seed]);
    SeedTick(p, c.arg);
    UnlockSettles(Tick(p), c.arg, if e.injectPending then n - 2 else n - 1);
  }

  /** An odd level below FF through the double. */
  lemma OddLevelEvents(e: EcuState, c: Cmd)
    requires WellFormedCmd(c) && c.kind == KIND_SECURITY && IsOdd(c.arg) && c.arg < 0xFF
    requires !e.injectDrop && e.injectNrc.None?
    ensures FakeDispatch(e, c, false)
            == (e.(injectPending := false, unlocked := true, pendingSeedLevel := None),
                Preamble(e, c) + [Evt(c.id, STATUS_OK, KIND_SECURITY, [0x67, c.arg + 1])])
  {
    SeedThenKey(e.(injectPending := false), c.arg);
  }

  /** A level that is even, or met by an injected NRC, is refused with one frame. */
  lemma RefusedAgrees(core: Core, e: EcuState, c: Cmd, n: nat)
    requires WellFormedCmd(c) && c.kind == KIND_SECURITY && (!IsOdd(c.arg) || e.injectNrc.Some?)
    requires Ready(core, c.id) && FitsNode(e, c) && !e.injectDrop && !Diverges(e, c) && n >= 2
    ensures Agrees(CaplDispatch(core, e, c, n), e, c)
  {
    var quiet := e.(injectPending := false);
    var (after, answer) := Handle(quiet, [0x27, c.arg]);
    if e.injectNrc.None? {
      EvenLevelIsRefused(quiet, c.arg);
    } else {
      InjectedNrcOnly(quiet, [0x27, c.arg]);
    }
    PlainAgrees(core, e, c, after, answer.rsp, n);
  }

  lemma OddLevelAgrees(core: Core, e: EcuState, c: Cmd, n: nat)
    requires WellFormedCmd(c) && c.kind == KIND_SECURITY && IsOdd(c.arg) && c.arg < 0xFF
    requires FitsNode(e, c) && !e.injectDrop && e.injectNrc.None? && n >= 3
    ensures Agrees(CaplDispatch(core, e, c, n), e, c)
  {
    var after := e.(injectPending := false, unlocked := true, pendingSeedLevel := None);
    var v := Evt(c.id, STATUS_OK, KIND_SECURITY, [0x67, c.arg + 1]);
    OddLevelNode(core, e, c, n);
    OddLevelEvents(e, c);
    SameEventsAgree(CaplDispatch(core, e, c, n), e, c, after, Preamble(e, c) + [v]);
  }

  lemma OddLevelNode(core: Core, e: EcuState, c: Cmd, n: nat)
    requires WellFormedCmd(c) && c.kind == KIND_SECURITY && IsOdd(c.arg) && c.arg < 0xFF
    requires FitsNode(e, c) && !e.injectDrop && e.injectNrc.None? && n >= 3
    ensures var b := CaplDispatch(core, e, c, n);
            && Settled(b) && !b.core.secActive
            && b.ecu == e.(injectPending := false, unlocked := true, pendingSeedLevel := None)
            && b.pubs == Preamble(e, c) + [Evt(c.id, STATUS_OK, KIND_SECURITY, [0x67, c.arg + 1])]
  {
    OddLevelSettles(core, e, c, n);
    assert ToByte(c.arg + 1) == c.arg + 1;
  }

  lemma SameEventsAgree(b: Bench, e: EcuState, c: Cmd, after: EcuState, events: seq<Evt>)
    requires Settled(b) && (b.core.secActive ==> b.core.secSeq <= c.id)
    requires FakeDispatch(e, c, false) == (after, events) && b.ecu == after && b.pubs == events
    ensures Agrees(b, e, c)
  {}

  lemma SecurityAgrees(core: Core, e: EcuState, c: Cmd, n: nat)
    requires WellFormedCmd(c) && c.kind == KIND_SECURITY
    requires Ready(core, c.id) && FitsNode(e, c) && !e.injectDrop && !Diverges(e, c) && n >= 3
    ensures Agrees(CaplDispatch(core, e, c, n), e, c)
  {
    if e.injectNrc.None? && IsOdd(c.arg) {
      OddLevelAgrees(core, e, c, n);
    } else {
      RefusedAgrees(core, e, c, n);
    }
  }

  // ---------------------------------------------------------------- where they part

  /** An injected 78 is terminal for the double; the node keeps waiting and reports the timeout too. */
  lemma Injected78Parts(core: Core, e: EcuState, c: Cmd, n: nat)
    requires WellFormedCmd(c) && !IsTp(c.kind) && Ready(core, c.id) && FitsNode(e, c)
    requires !e.injectDrop && e.injectNrc == Some(0x78) && n >= 3
    ensures |CaplDispatch(core, e, c, n).pubs| == |FakeDispatch(e, c, false).1| + 1
  {
    hide Begin, FakeDispatch, Tick, Handle;
    var sid, quiet := RequestBytes(c)[0], e.(injectPending := false);
    var b := Begin(core, e, c);
    BeginSends(core, e, c);
    InjectedNrcOnly(quiet, RequestBytes(c));
    SettlePending(b, e, sid, [[0x7F, sid, 0x78]], n - 1);
    var p := PastPending(b, e, sid, [[0x7F, sid, 0x78]]);
    assert [[0x7F, sid, 0x78]] + [] == [[0x7F, sid, 0x78]];
    PendingTick(p, sid, []);
    SilenceSettles(Tick(p), if e.injectPending then n - 2 else n - 1);
    PlainEvents(e, c, quiet.(injectNrc := None), [0x7F, sid, 0x78]);
  }

  /** A suppressed TesterPresent is silence for the double and a timeout for the node. */
  lemma SuppressedParts(core: Core, e: EcuState, c: Cmd, n: nat)
    requires WellFormedCmd(c) && c.kind == KIND_RAW && Suppressed(c.data.value)
    requires Ready(core, c.id) && FitsNode(e, c) && !e.injectDrop && e.injectNrc.None? && n >= 2
    ensures |CaplDispatch(core, e, c, n).pubs| == |FakeDispatch(e, c, false).1| + 1
  {
    var b := Begin(core, e, c);
    BeginSends(core, e, c);
    AnswerKinds(e, c.data.value);
    SettlePending(b, e, c.data.value[0], [], n - 1);
    SilenceSettles(PastPending(b, e, c.data.value[0], []), if e.injectPending then n - 1 else n);
    AnsweredOnce(e, c);
  }

  /** Level FF overflows in the double, while the node wraps to key level 00 and unlocks. */
  lemma LevelFFParts(core: Core, e: EcuState, c: Cmd, n: nat)
    requires WellFormedCmd(c) && c.kind == KIND_SECURITY && c.arg == 0xFF
    requires Ready(core, c.id) && FitsNode(e, c) && !e.injectDrop && e.injectNrc.None? && n >= 3
    ensures |CaplDispatch(core, e, c, n).pubs| == |FakeDispatch(e, c, false).1| + 1
  {
    OddLevelSettles(core, e, c, n);
    AnsweredOnce(e, c);
  }

  // ---------------------------------------------------------------- main results

  /** Outside the three families, a command gives the same lines and the same ECU on both sides. */
  lemma CommandAgrees(core: Core, e: EcuState, c: Cmd, n: nat)
    requires WellFormedCmd(c) && Ready(core, c.id) && FitsNode(e, c) && !Diverges(e, c) && n >= 3
    ensures Agrees(CaplDispatch(core, e, c, n), e, c)
  {
    if IsTp(c.kind) {
      TpAgrees(core, e, c, n);
    } else if e.injectDrop {
      DroppedAgrees(core, e, c, n);
    } else if c.kind == KIND_SECURITY {
      SecurityAgrees(core, e, c, n);
    } else {
      UdsAgrees(core, e, c, n);
    }
  }

  /** The three families are exactly where the lines differ: there the node publishes one line more. */
  lemma LinesAgreeIffNotDiverging(core: Core, e: EcuState, c: Cmd, n: nat)
    requires WellFormedCmd(c) && Ready(core, c.id) && FitsNode(e, c) && n >= 3
    ensures Lines(CaplDispatch(core, e, c, n).pubs) == Lines(FakeDispatch(e, c, false).1) <==> !Diverges(e, c)
    ensures Agrees(CaplDispatch(core, e, c, n), e, c) <==> !Diverges(e, c)
  {
    if !Diverges(e, c) {
      CommandAgrees(core, e, c, n);
    } else if e.injectNrc == Some(0x78) {
      Injected78Parts(core, e, c, n);
    } else if c.kind == KIND_RAW {
      SuppressedParts(core, e, c, n);
    } else {
      LevelFFParts(core, e, c, n);
    }
  }

  // ---------------------------------------------------------------- whole histories

  /** A history: commands, with injections armed in between. */
  datatype Item = Arm(nrc: Option<Byte>, pendingBefore: bool, drop: bool) | Do(cmd: Cmd)

  function FakeHistory(e: EcuState, items: seq<Item>): (EcuState, seq<Evt>)
    decreases |items|
  {
    if items == [] then (e, [])
    else
      match items[0]
      case Arm(nrc, pendingBefore, drop) => FakeHistory(InjectNext(e, nrc, pendingBefore, drop), items[1..])
      case Do(c) =>
        var (after, events) := FakeDispatch(e, c, false);
        var (end, more) := FakeHistory(after, items[1..]);
        (end, events + more)
  }

  function NodeHistory(core: Core, e: EcuState, items: seq<Item>, n: nat): (EcuState, seq<Evt>)
    decreases |items|
  {
    if items == [] then (e, [])
    else
      match items[0]
      case Arm(nrc, pendingBefore, drop) => NodeHistory(core, InjectNext(e, nrc, pendingBefore, drop), items[1..], n)
      case Do(c) =>
        var b := CaplDispatch(core, e, c, n);
        var (end, more) := NodeHistory(b.core, b.ecu, items[1..], n);
        (end, b.pubs + more)
  }

  /** Ids above `last` that strictly increase, and no command of the three families when its turn comes. */
  predicate Comparable(e: EcuState, items: seq<Item>, last: int)
    decreases |items|
  {
    items == [] ||
    match items[0]
    case Arm(nrc, pendingBefore, drop) => Comparable(InjectNext(e, nrc, pendingBefore, drop), items[1..], last)
    case Do(c) =>
      && WellFormedCmd(c) && last < c.id && FitsNode(e, c) && !Diverges(e, c)
      && Comparable(FakeDispatch(e, c, false).0, items[1..], c.id)
  }

  /**
   The double refines the node: over every comparable history, driving the node against the same ECU,
   injections and key function gives the same wire lines and leaves the ECU in the same state.
   */
  lemma {:induction false} FakeRefinesNode(core: Core, e: EcuState, items: seq<Item>, last: int, n: nat)
    requires Comparable(e, items, last) && n >= 3
    requires !core.armed && (core.secActive ==> core.secSeq <= last)
    ensures NodeHistory(core, e, items, n).0 == FakeHistory(e, items).0
    ensures Lines(NodeHistory(core, e, items, n).1) == Lines(FakeHistory(e, items).1)
    decreases |items|
  {
    if items != [] {
      match items[0]
      case Arm(nrc, pendingBefore, drop) =>
        FakeRefinesNode(core, InjectNext(e, nrc, pendingBefore, drop), items[1..], last, n);
      case Do(c) =>
        CommandAgrees(core, e, c, n);
        var b := CaplDispatch(core, e, c, n);
        var (after, events) := FakeDispatch(e, c, false);
        FakeRefinesNode(b.core, after, items[1..], c.id, n);
        LinesConcat(b.pubs, NodeHistory(b.core, b.ecu, items[1..], n).1);
        LinesConcat(events, FakeHistory(after, items[1..]).1);
    }
  }
}
