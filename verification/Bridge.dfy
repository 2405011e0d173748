/**
 The event side of bridge/flexdiag_bridge.py: the mapping from events to wire lines, their delivery, and
 the mock backend `FakeVectorCom`.
 */
module Bridge {
  import opened Base
  import opened Wire
  import opened MockEcu

  const KIND_RAW := 0
  const KIND_READDTC := 1
  const KIND_CLEARDTC := 2
  const KIND_SECURITY := 3
  const KIND_SESSION := 4
  const KIND_TP_START := 5
  const KIND_TP_STOP := 6

  const STATUS_POSITIVE := 0
  const STATUS_NEGATIVE := 1
  const STATUS_OK := 2
  const STATUS_ERR_KEYGEN := 3
  const STATUS_ERR_TIMEOUT := 4

  /** A queued request: the tuples of `cmd_q`. */
  datatype Cmd = Cmd(id: int, kind: int, arg: int, data: Option<Bytes>)

  /** A queued response: the tuples of `evt_q`. */
  datatype Evt = Evt(id: int, status: int, kind: int, data: Bytes)

  predicate IsTp(kind: int) {
    kind == KIND_TP_START || kind == KIND_TP_STOP
  }

  predicate WellFormedCmd(c: Cmd) {
    && c.id >= 0
    && KIND_RAW <= c.kind <= KIND_TP_STOP
    && 0 <= c.arg < 256
    && (c.data.Some? <==> c.kind == KIND_RAW)
    && (c.data.Some? ==> c.data.value != [])
  }

  // ---------------------------------------------------------------- events to lines

  /** The response an event stands for; `ValueErr` is an unknown status. */
  function ResponseOf(v: Evt): Result<Response, WireError> {
    if v.status == STATUS_POSITIVE then Ok(RspLine(v.id, v.data))
    else if v.status == STATUS_NEGATIVE then
      Ok(NrcLine(v.id, if |v.data| > 1 then v.data[1] else 0, if |v.data| > 2 then v.data[2] else 0))
    else if v.status == STATUS_OK then
      if v.kind == KIND_SECURITY then
        var even: int := if |v.data| > 1 then v.data[1] else 0;
        Ok(OkSecLine(v.id, (even - 1) % 256))
      else Ok(OkTpLine(v.id))
    else if v.status == STATUS_ERR_KEYGEN then Ok(ErrLine(v.id, 500, "keygen_fail"))
    else if v.status == STATUS_ERR_TIMEOUT then Ok(ErrLine(v.id, 504, "ecu_timeout"))
    else Err(ValueErr)
  }

  /** `encode_response`. */
  function EncodeResponse(v: Evt): Result<string, WireError> {
    match ResponseOf(v)
    case Ok(r) => Encode(r)
    case Err(e) => Err(e)
  }

  /** The encodings of a queue of events, in order. */
  function Lines(events: seq<Evt>): (lines: seq<Result<string, WireError>>)
    ensures |lines| == |events|
  {
    seq(|events|, i requires 0 <= i < |events| => EncodeResponse(events[i]))
  }

  lemma LinesConcat(a: seq<Evt>, b: seq<Evt>)
    ensures Lines(a + b) == Lines(a) + Lines(b)
  {
    hide EncodeResponse;
    var all, parts := Lines(a + b), Lines(a) + Lines(b);
    forall i | 0 <= i < |all|
      ensures all[i] == parts[i]
    {
      if i < |a| {
        assert (a + b)[i] == a[i];
      } else {
        assert (a + b)[i] == b[i - |a|];
      }
    }
  }

  /** The lines the event pump of a connection sends: it stops for good at the first that does not encode. */
  function Delivered(lines: seq<Result<string, WireError>>): (sent: seq<string>)
    ensures |sent| <= |lines|
  {
    if lines == [] || lines[0].Err? then [] else [lines[0].value] + Delivered(lines[1..])
  }

  /** What is delivered is the longest encodable prefix of the events: all of them if and only if all encode. */
  lemma {:induction false} DeliveredIsLongestPrefix(lines: seq<Result<string, WireError>>)
    ensures var sent := Delivered(lines);
            && (forall i :: 0 <= i < |sent| ==> lines[i] == Ok(sent[i]))
            && (|sent| < |lines| ==> lines[|sent|].Err?)
            && (|sent| == |lines| <==> forall i :: 0 <= i < |lines| ==> lines[i].Ok?)
    decreases |lines|
  {
    if lines != [] && lines[0].Ok? {
      DeliveredIsLongestPrefix(lines[1..]);
      assert forall i :: 0 < i < |lines| ==> lines[i] == lines[1..][i - 1];
    }
  }

  /** One event that does not encode cuts off everything behind it. */
  lemma {:induction false} DeliveredStops(a: seq<Result<string, WireError>>, b: seq<Result<string, WireError>>)
    ensures Delivered(a + b) == Delivered(a) + if |Delivered(a)| == |a| then Delivered(b) else []
    decreases |a|
  {
    hide Delivered;
    if a == [] {
      assert a + b == b;
      DeliveredNothing();
    } else {
      DeliveredStops(a[1..], b);
      DeliveredFirst(a[0], a[1..]);
      DeliveredFirst(a[0], a[1..] + b);
      assert [a[0]] + a[1..] == a;
      assert [a[0]] + (a[1..] + b) == a + b;
    }
  }

  lemma DeliveredNothing()
    ensures Delivered([]) == []
  {}

  lemma DeliveredFirst(r: Result<string, WireError>, rest: seq<Result<string, WireError>>)
    ensures Delivered([r] + rest) == if r.Ok? then [r.value] + Delivered(rest) else []
  {
    assert ([r] + rest)[1..] == rest;
  }

  /** The non-terminal `7F <sid> 78`. */
  predicate IsPending(v: Evt) {
    v.status == STATUS_NEGATIVE && |v.data| >= 3 && v.data[0] == 0x7F && v.data[2] == 0x78
  }

  // ---------------------------------------------------------------- the mock backend, as a function

  function RequestBytes(c: Cmd): Bytes
    requires c.kind == KIND_RAW ==> c.data.Some?
  {
    if c.kind == KIND_RAW then c.data.value
    else if c.kind == KIND_READDTC then [0x19, 0x02, c.arg % 256]
    else if c.kind == KIND_CLEARDTC then [0x14, 0xFF, 0xFF, 0xFF]
    else if c.kind == KIND_SESSION then [0x10, c.arg % 256]
    else [0x27, c.arg % 256]
  }

  /** The event of a dropped request, unless the backend is being stopped. */
  function Dropped(id: int, kind: int, stopping: bool): seq<Evt> {
    if stopping then [] else [Evt(id, STATUS_ERR_TIMEOUT, kind, [])]
  }

  function PendingEvents(e: EcuState, id: int, kind: int, sid: Byte): seq<Evt> {
    if e.injectPending then [Evt(id, STATUS_NEGATIVE, kind, [0x7F, sid, 0x78])] else []
  }

  function RespondUds(e: EcuState, id: int, kind: int, req: Bytes, stopping: bool): (EcuState, seq<Evt>) {
    if e.injectDrop then (e.(injectDrop := false), Dropped(id, kind, stopping))
    else if req == [] then (Handle(e.(injectPending := false), req).0, [])
    else
      var pending := PendingEvents(e, id, kind, req[0]);
      var (after, answer) := Handle(e.(injectPending := false), req);
      if answer.Reply? && answer.rsp != [] then
        var status := if answer.rsp[0] == 0x7F then STATUS_NEGATIVE else STATUS_POSITIVE;
        (after, pending + [Evt(id, status, kind, answer.rsp)])
      else (after, pending)
  }

  function NegativeSecurity(id: int, rsp: Bytes): Evt {
    Evt(id, STATUS_NEGATIVE, KIND_SECURITY, [0x7F, 0x27, if |rsp| > 2 then rsp[2] else 0])
  }

  function DoSecurity(e: EcuState, id: int, level: Byte, stopping: bool): (EcuState, seq<Evt>) {
    if e.injectDrop then (e.(injectDrop := false), Dropped(id, KIND_SECURITY, stopping))
    else
      var pending := PendingEvents(e, id, KIND_SECURITY, 0x27);
      var (seeded, answer) := Handle(e.(injectPending := false), [0x27, level]);
      if !answer.Reply? || answer.rsp == [] then (seeded, pending)
      else if answer.rsp[0] == 0x7F then (seeded, pending + [NegativeSecurity(id, answer.rsp)])
      else
        var (after, events) := SendKey(seeded, id, level, answer.rsp);
        (after, pending + events)
  }

  /** The key step. Level FF overflows `level + 1`: the exception is logged and nothing is queued. */
  function SendKey(e: EcuState, id: int, level: Byte, seedRsp: Bytes): (EcuState, seq<Evt>) {
    if level == 255 then (e, [])
    else
      var seed := if |seedRsp| > 2 then seedRsp[2..] else [];
      var (after, answer) := Handle(e, [0x27, level + 1] + TestKey(seed));
      if !answer.Reply? || answer.rsp == [] then (after, [])
      else if answer.rsp[0] == 0x7F then (after, [NegativeSecurity(id, answer.rsp)])
      else (after, [Evt(id, STATUS_OK, KIND_SECURITY, answer.rsp)])
  }

  /** `FakeVectorCom._dispatch`: the ECU afterwards and the events queued, in order. */
  function FakeDispatch(e: EcuState, c: Cmd, stopping: bool): (EcuState, seq<Evt>) {
    if c.kind == KIND_RAW && c.data.None? then (e, [])
    else if c.kind in {KIND_RAW, KIND_READDTC, KIND_CLEARDTC, KIND_SESSION} then
      RespondUds(e, c.id, c.kind, RequestBytes(c), stopping)
    else if c.kind == KIND_SECURITY then DoSecurity(e, c.id, c.arg % 256, stopping)
    else if IsTp(c.kind) then (e, [Evt(c.id, STATUS_OK, c.kind, [])])
    else (e, [])
  }

  /** A whole queue, in FIFO order. */
  function FakeRun(e: EcuState, cs: seq<Cmd>): (EcuState, seq<Evt>) {
    if cs == [] then (e, [])
    else
      var (before, events) := FakeRun(e, cs[..|cs| - 1]);
      var (after, more) := FakeDispatch(before, cs[|cs| - 1], false);
      (after, events + more)
  }

  lemma FakeRunSnoc(e: EcuState, cs: seq<Cmd>, k: nat)
    requires k < |cs|
    ensures var (before, events) := FakeRun(e, cs[..k]);
            FakeRun(e, cs[..k + 1])
            == (FakeDispatch(before, cs[k], false).0, events + FakeDispatch(before, cs[k], false).1)
  {
    assert cs[..k + 1][..k] == cs[..k];
  }

  // ---------------------------------------------------------------- the mock backend, as a class

  class FakeVectorCom {
    const ecu: Ecu
    var cmdQ: seq<Cmd>
    var evtQ: seq<Evt>

    constructor (ecu: Ecu)
      ensures this.ecu == ecu && cmdQ == [] && evtQ == []
    {
      this.ecu, cmdQ, evtQ := ecu, [], [];
    }

    method Put(v: Evt)
      modifies this`evtQ
      ensures evtQ == old(evtQ) + [v]
    {
      evtQ := evtQ + [v];
    }

    method Respond(id: int, kind: int, req: Bytes, stopping: bool)
      modifies this`evtQ, ecu
      ensures ecu.State() == RespondUds(old(ecu.State()), id, kind, req, stopping).0
      ensures evtQ == old(evtQ) + RespondUds(old(ecu.State()), id, kind, req, stopping).1
    {
      var drop := ecu.ConsumeDrop();
      if drop {
        if !stopping {
          Put(Evt(id, STATUS_ERR_TIMEOUT, kind, []));
        }
        return;
      }
      var pending := ecu.ConsumePendingBefore();
      if pending && req != [] {
        Put(Evt(id, STATUS_NEGATIVE, kind, [0x7F, req[0], 0x78]));
      }
      var answer := ecu.HandleRequest(req);
      if answer.Reply? && answer.rsp != [] {
        var status := if answer.rsp[0] == 0x7F then STATUS_NEGATIVE else STATUS_POSITIVE;
        Put(Evt(id, status, kind, answer.rsp));
      }
    }

    method Security(id: int, level: Byte, stopping: bool)
      modifies this`evtQ, ecu
      ensures ecu.State() == DoSecurity(old(ecu.State()), id, level, stopping).0
      ensures evtQ == old(evtQ) + DoSecurity(old(ecu.State()), id, level, stopping).1
    {
      var drop := ecu.ConsumeDrop();
      if drop {
        if !stopping {
          Put(Evt(id, STATUS_ERR_TIMEOUT, KIND_SECURITY, []));
        }
        return;
      }
      var pending := ecu.ConsumePendingBefore();
      if pending {
        Put(Evt(id, STATUS_NEGATIVE, KIND_SECURITY, [0x7F, 0x27, 0x78]));
      }
      var answer := ecu.HandleRequest([0x27, level]);
      if !answer.Reply? || answer.rsp == [] {
        return;
      }
      if answer.rsp[0] == 0x7F {
        Put(NegativeSecurity(id, answer.rsp));
        return;
      }
      Key(id, level, answer.rsp);
    }

    method Key(id: int, level: Byte, seedRsp: Bytes)
      modifies this`evtQ, ecu
      ensures ecu.State() == SendKey(old(ecu.State()), id, level, seedRsp).0
      ensures evtQ == old(evtQ) + SendKey(old(ecu.State()), id, level, seedRsp).1
    {
      if level == 255 {
        return;
      }
      var seed := if |seedRsp| > 2 then seedRsp[2..] else [];
      var answer := ecu.HandleRequest([0x27, level + 1] + TestKey(seed));
      if !answer.Reply? || answer.rsp == [] {
        return;
      }
      if answer.rsp[0] == 0x7F {
        Put(NegativeSecurity(id, answer.rsp));
      } else {
        Put(Evt(id, STATUS_OK, KIND_SECURITY, answer.rsp));
      }
    }

    method Dispatch(c: Cmd, stopping: bool)
      modifies this`evtQ, ecu
      ensures ecu.State() == FakeDispatch(old(ecu.State()), c, stopping).0
      ensures evtQ == old(evtQ) + FakeDispatch(old(ecu.State()), c, stopping).1
    {
      if c.kind == KIND_RAW {
        if c.data.Some? {
          Respond(c.id, c.kind, c.data.value, stopping);
        }
      } else if c.kind == KIND_READDTC {
        Respond(c.id, c.kind, [0x19, 0x02, c.arg % 256], stopping);
      } else if c.kind == KIND_CLEARDTC {
        Respond(c.id, c.kind, [0x14, 0xFF, 0xFF, 0xFF], stopping);
      } else if c.kind == KIND_SESSION {
        Respond(c.id, c.kind, [0x10, c.arg % 256], stopping);
      } else if c.kind == KIND_SECURITY {
        Security(c.id, c.arg % 256, stopping);
      } else if c.kind == KIND_TP_START || c.kind == KIND_TP_STOP {
        Put(Evt(c.id, STATUS_OK, c.kind, []));
      }
    }

    /** The worker loop, until its queue is empty. */
    method Drain()
      modifies this, ecu
      ensures cmdQ == []
      ensures ecu.State() == FakeRun(old(ecu.State()), old(cmdQ)).0
      ensures evtQ == old(evtQ) + FakeRun(old(ecu.State()), old(cmdQ)).1
    {
      hide FakeDispatch;
      ghost var all, k, e := cmdQ, 0, ecu.State();
      while cmdQ != []
        invariant k <= |all| && cmdQ == all[k..]
        invariant ecu.State() == FakeRun(e, all[..k]).0
        invariant evtQ == old(evtQ) + FakeRun(e, all[..k]).1
        decreases |cmdQ|
      {
        var c := cmdQ[0];
        cmdQ := cmdQ[1..];
        Dispatch(c, false);
        FakeRunSnoc(e, all, k);
        k := k + 1;
      }
      assert all[..k] == all;
    }
  }

  // ---------------------------------------------------------------- exactly one answer

  /** The well-formed commands the mock leaves without a terminal event. */
  predicate Unanswered(e: EcuState, c: Cmd)
    requires WellFormedCmd(c)
  {
    && !e.injectDrop
    && e.injectNrc.None?
    && ((c.kind == KIND_RAW && Suppressed(c.data.value)) || (c.kind == KIND_SECURITY && c.arg == 0xFF))
  }

  /** The non-terminal events of a command. */
  function Preamble(e: EcuState, c: Cmd): seq<Evt>
    requires WellFormedCmd(c)
  {
    if IsTp(c.kind) || e.injectDrop then [] else PendingEvents(e, c.id, c.kind, RequestBytes(c)[0])
  }

  predicate IsTerminalOf(v: Evt, c: Cmd) {
    v.id == c.id && v.kind == c.kind && !IsPending(v) && ResponseOf(v).Ok?
  }

  /** The preamble followed by one terminal event, or the preamble alone. */
  predicate OneAnswer(events: seq<Evt>, e: EcuState, c: Cmd)
    requires WellFormedCmd(c)
  {
    var k := |Preamble(e, c)|;
    if Unanswered(e, c) then events == Preamble(e, c)
    else |events| == k + 1 && events[..k] == Preamble(e, c) && IsTerminalOf(events[k], c)
  }

  lemma UdsAnsweredOnce(e: EcuState, c: Cmd)
    requires WellFormedCmd(c) && !IsTp(c.kind) && c.kind != KIND_SECURITY
    requires e.injectNrc != Some(0x78) && !e.injectDrop
    ensures OneAnswer(FakeDispatch(e, c, false).1, e, c)
  {
    var req := RequestBytes(c);
    AnswerKinds(e, req);
  }

  /** Apart from an injected one, no answer of the ECU is a response-pending, and only a suppressed
      TesterPresent goes unanswered. */
  lemma AnswerKinds(e: EcuState, req: Bytes)
    requires req != [] && e.injectNrc != Some(0x78)
    ensures var a := Handle(e.(injectPending := false), req).1;
            && (a.Silent? <==> e.injectNrc.None? && Suppressed(req))
            && (a.Reply? ==> a.rsp != [] && (a.rsp[0] == 0x7F ==> |a.rsp| == 3 && a.rsp[2] != 0x78))
            && !a.Raises?
  {}

  lemma SeedStep(e: EcuState, level: Byte)
    requires level == 0xFF
    ensures var a := Handle(e.(injectPending := false), [0x27, level]).1;
            a.Reply? && a.rsp != [] && (a.rsp[0] == 0x7F <==> e.injectNrc.Some?)
  {}

  lemma SecurityDispatch(e: EcuState, c: Cmd)
    requires c.kind == KIND_SECURITY && 0 <= c.arg < 256
    ensures FakeDispatch(e, c, false) == DoSecurity(e, c.id, c.arg, false)
  {
    hide DoSecurity;
    assert c.arg % 256 == c.arg;
  }

  lemma SecurityEvents(e: EcuState, c: Cmd)
    requires WellFormedCmd(c) && c.kind == KIND_SECURITY && !e.injectDrop
    requires e.injectNrc != Some(0x78)
    ensures var (seeded, a) := Handle(e.(injectPending := false), [0x27, c.arg]);
            && a.Reply? && a.rsp != []
            && FakeDispatch(e, c, false).1
               == Preamble(e, c) + if a.rsp[0] == 0x7F then [NegativeSecurity(c.id, a.rsp)]
                                   else SendKey(seeded, c.id, c.arg, a.rsp).1
  {
    AnswerKinds(e, [0x27, c.arg]);
    SecurityDispatch(e, c);
    assert Preamble(e, c) == PendingEvents(e, c.id, KIND_SECURITY, 0x27);
  }

  lemma SecurityAnsweredOnce(e: EcuState, c: Cmd)
    requires WellFormedCmd(c) && c.kind == KIND_SECURITY
    requires e.injectNrc != Some(0x78) && !e.injectDrop
    ensures OneAnswer(FakeDispatch(e, c, false).1, e, c)
  {
    SecurityEvents(e, c);
    AnswerKinds(e, [0x27, c.arg]);
    var (seeded, answer) := Handle(e.(injectPending := false), [0x27, c.arg]);
    if c.arg == 0xFF {
      SeedStep(e, c.arg);
    } else if answer.rsp[0] != 0x7F {
      KeyAnsweredOnce(seeded, c, answer.rsp);
    }
  }

  lemma KeyAnsweredOnce(e: EcuState, c: Cmd, seedRsp: Bytes)
    requires c.kind == KIND_SECURITY && 0 <= c.arg < 255 && e.injectNrc != Some(0x78)
    ensures var events := SendKey(e, c.id, c.arg, seedRsp).1;
            |events| == 1 && IsTerminalOf(events[0], c)
  {
    var seed := if |seedRsp| > 2 then seedRsp[2..] else [];
    var req := [0x27, c.arg + 1] + TestKey(seed);
    AnswerKinds(e, req);
    AnswerIgnoresPending(e, req);
  }

  lemma AnswerIgnoresPending(e: EcuState, req: Bytes)
    ensures Handle(e, req).1 == Handle(e.(injectPending := false), req).1
  {}

  /** Why an injected 78 is excluded below: it is all the client gets, and it is never terminal. */
  lemma Injected78IsNeverTerminal(e: EcuState, c: Cmd)
    requires WellFormedCmd(c) && !IsTp(c.kind) && !e.injectDrop && e.injectNrc == Some(0x78)
    ensures var events := FakeDispatch(e, c, false).1;
            |events| == |Preamble(e, c)| + 1 && forall i :: 0 <= i < |events| ==> IsPending(events[i])
  {
    InjectedNrcOnly(e.(injectPending := false), RequestBytes(c));
  }

  lemma ImmediateAnswer(e: EcuState, c: Cmd)
    requires WellFormedCmd(c) && (IsTp(c.kind) || e.injectDrop)
    ensures OneAnswer(FakeDispatch(e, c, false).1, e, c)
  {}

  lemma PreambleIsPending(e: EcuState, c: Cmd)
    requires WellFormedCmd(c)
    ensures |Preamble(e, c)| <= 1
    ensures forall i :: 0 <= i < |Preamble(e, c)| ==>
                          var v := Preamble(e, c)[i]; v.id == c.id && v.kind == c.kind && IsPending(v)
  {}

  /**
   A queued command gets at most one response-pending event and then exactly one terminal event with
   its own id and kind; only the preamble in the two cases of `Unanswered`.
   */
  lemma AnsweredOnce(e: EcuState, c: Cmd)
    requires WellFormedCmd(c) && e.injectNrc != Some(0x78)
    ensures |Preamble(e, c)| <= 1
    ensures OneAnswer(FakeDispatch(e, c, false).1, e, c)
  {
    PreambleIsPending(e, c);
    if IsTp(c.kind) || e.injectDrop {
      ImmediateAnswer(e, c);
    } else if c.kind == KIND_SECURITY {
      SecurityAnsweredOnce(e, c);
    } else {
      UdsAnsweredOnce(e, c);
    }
  }

  /** A command ends in the answer it is owed exactly when no 78 is injected into it. */
  lemma AnsweredIffNo78(e: EcuState, c: Cmd)
    requires WellFormedCmd(c)
    ensures OneAnswer(FakeDispatch(e, c, false).1, e, c)
            <==> IsTp(c.kind) || e.injectDrop || e.injectNrc != Some(0x78)
  {
    if IsTp(c.kind) || e.injectDrop {
      ImmediateAnswer(e, c);
    } else if e.injectNrc == Some(0x78) {
      Injected78IsNeverTerminal(e, c);
    } else {
      AnsweredOnce(e, c);
    }
  }

  /**
   An injection shows in the next request other than TP, and only there. A drop times out at once, a
   response-pending comes first and once, an NRC comes in place of the service; what is served is disarmed,
   and a drop leaves the other two armed for the request after it.
   */
  lemma InjectionIsServedOnce(e: EcuState, nrc: Option<Byte>, pendingBefore: bool, drop: bool, c: Cmd)
    requires WellFormedCmd(c) && !IsTp(c.kind)
    ensures var (after, events) := FakeDispatch(InjectNext(e, nrc, pendingBefore, drop), c, false);
            var sid := RequestBytes(c)[0];
            && !after.injectDrop
            && (drop ==> events == [Evt(c.id, 4, c.kind, [])] && after == InjectNext(e, nrc, pendingBefore, false))
            && (!drop ==> !after.injectPending && after.injectNrc.None?)
            && (!drop && pendingBefore ==>
                  events != [] && events[0] == Evt(c.id, 1, c.kind, [0x7F, sid, 0x78]))
            && (!drop && nrc.Some? ==>
                  && |events| == (if pendingBefore then 2 else 1)
                  && events[|events| - 1] == Evt(c.id, 1, c.kind, [0x7F, sid, nrc.value])
                  && after == InjectNext(e, None, false, false))
            && (!drop && !pendingBefore && nrc.None? ==>
                  (after, events) == FakeDispatch(InjectNext(e, None, false, false), c, false))
  {
    hide TestKey, SecurityAccess, Select, Report;
    var armed := InjectNext(e, nrc, pendingBefore, drop);
    var quiet := armed.(injectPending := false);
    if nrc.Some? {
      InjectedNrcOnly(quiet, RequestBytes(c));
    }
    HandleServesNrc(quiet, RequestBytes(c));
    if c.kind == KIND_SECURITY {
      KeyStepServesNrc(quiet, c);
    }
  }

  lemma HandleServesNrc(e: EcuState, req: Bytes)
    requires req != []
    ensures var after := Handle(e, req).0;
            after.injectNrc.None? && after.injectPending == e.injectPending && after.injectDrop == e.injectDrop
  {
    hide TestKey;
  }

  lemma KeyStepServesNrc(e: EcuState, c: Cmd)
    requires c.kind == KIND_SECURITY && 0 <= c.arg < 256
    ensures var (seeded, answer) := Handle(e, [0x27, c.arg]);
            answer.Reply? ==>
              var after := SendKey(seeded, c.id, c.arg, answer.rsp).0;
              after.injectNrc.None? && after.injectPending == e.injectPending && after.injectDrop == e.injectDrop
  {
    hide TestKey, Handle;
    HandleServesNrc(e, [0x27, c.arg]);
    var (seeded, answer) := Handle(e, [0x27, c.arg]);
    if c.arg < 255 && answer.Reply? {
      var seed := if |answer.rsp| > 2 then answer.rsp[2..] else [];
      HandleServesNrc(seeded, [0x27, c.arg + 1] + TestKey(seed));
    }
  }

  /** A backend that is being stopped differs only in a dropped request, which then stays unanswered. */
  lemma StoppingSilencesDrops(e: EcuState, c: Cmd)
    requires WellFormedCmd(c)
    ensures e.injectDrop && !IsTp(c.kind) ==> FakeDispatch(e, c, true) == (e.(injectDrop := false), [])
    ensures !e.injectDrop || IsTp(c.kind) ==> FakeDispatch(e, c, true) == FakeDispatch(e, c, false)
  {
    hide Handle, TestKey;
  }

  // ---------------------------------------------------------------- what an event is rendered as

  /** An event cannot be rendered, and raises a plain `ValueError`, exactly when its status is unknown. */
  lemma UnknownStatusRaises(v: Evt)
    ensures EncodeResponse(v) == Err(ValueErr) <==> !(0 <= v.status <= 4)
    ensures ResponseOf(v).Err? <==> !(0 <= v.status <= 4)
  {
    hide Encode;
    if ResponseOf(v).Ok? {
      EncodeRaisesProtocolError(ResponseOf(v).value);
    }
  }

  lemma EncodeRaisesProtocolError(r: Response)
    ensures Encode(r) != Err(ValueErr)
  {
    hide Body;
  }

  /** A negative event of any length is rendered with service and code, zero where a byte is missing. */
  lemma NegativeIsRendered(id: nat, kind: int, data: Bytes)
    ensures EncodeResponse(Evt(id, 1, kind, data))
         == Encode(if |data| >= 3 then NrcLine(id, data[1], data[2])
                   else if |data| == 2 then NrcLine(id, data[1], 0)
                   else NrcLine(id, 0, 0))
  {
    hide Encode;
  }
}
