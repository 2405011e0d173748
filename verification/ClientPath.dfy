/**
 A request of the Dart client all the way: printed, dispatched, served by the mock, encoded, stripped of
 its newline by the transport, and matched with the pending request.
 */
module ClientPath {
  import opened Base
  import opened Wire
  import opened MockEcu
  import opened Bridge
  import opened Refinement
  import Agreement
  import Correlation
  import DartCodec
  import EndToEnd
  import Front
  import Text

  /** The requests the bridge can take: within a line, and RAW with a payload. */
  predicate Sendable(id: nat, r: Agreement.DartRequest) {
    (r.Raw? ==> r.data != []) && |Agreement.Printed(id, r)| <= MAX_LINE
  }

  /** What comes back for the request printed with `id`. */
  function Answers(e: EcuState, id: nat, r: Agreement.DartRequest, tool: string): seq<Result<string, WireError>> {
    EndToEnd.Exchange(e, Agreement.Printed(id, r), tool).1
  }

  function Events(e: EcuState, id: nat, r: Agreement.DartRequest): seq<Evt> {
    FakeDispatch(e, Agreement.Intended(id, r), false).1
  }

  /** The line as the transport hands it on. */
  function Stripped(line: string): string {
    if line == "" then "" else line[..|line| - 1]
  }

  lemma AnswersEncodeEvents(e: EcuState, id: nat, r: Agreement.DartRequest, tool: string)
    requires Sendable(id, r)
    ensures |Answers(e, id, r, tool)| == |Events(e, id, r)|
    ensures forall i :: 0 <= i < |Events(e, id, r)| ==>
                          Answers(e, id, r, tool)[i] == EncodeResponse(Events(e, id, r)[i])
  {
    hide Agreement.Printed, FakeDispatch, Front.Dispatch, EncodeResponse;
    Agreement.DartCommandsAreQueued(id, r, tool);
  }

  /** Every event of a command carries its id. */
  lemma EventsCarryTheId(e: EcuState, c: Cmd)
    ensures forall i :: 0 <= i < |FakeDispatch(e, c, false).1| ==> FakeDispatch(e, c, false).1[i].id == c.id
  {
    hide Handle, TestKey;
  }

  /** A line of the bridge is parsed by the client as the response of its event. */
  lemma ClientReads(v: Evt)
    requires 0 <= v.id <= DartCodec.INT64_MAX && EncodeResponse(v).Ok?
    ensures ResponseOf(v).Ok? && ResponseOf(v).value.id == v.id
    ensures DartCodec.ParseResponse(Stripped(EncodeResponse(v).value)) == Some(ResponseOf(v).value)
  {
    hide ResponseOf, Encode, DartCodec.ParseResponse, ParseResponse, WellFormed, Agreement.PlainFields;
    assert ResponseOf(v).Ok?;
    Agreement.EventResponseIsWellFormed(v);
    Agreement.BothReadResponse(ResponseOf(v).value);
    EncodedIsNotEmpty(ResponseOf(v).value);
  }

  lemma EncodedIsNotEmpty(r: Response)
    requires Encode(r).Ok?
    ensures Encode(r).value != ""
  {
    hide Body;
  }

  /** A fresh request that has been sent is completed by the first line with its id. */
  lemma FreshRequestCompletes(s: Correlation.Service, text: string, resp: Response)
    requires s.listening && s.next > 0 && s.next !in s.pending
    requires DartCodec.ParseResponse(text) == Some(resp) && resp.id == s.next
    ensures var waiting := Correlation.OnDelivered(Correlation.OnIssue(s), s.next);
            var t := Correlation.Next(waiting, Correlation.Line(text));
            && t.requests == s.requests[s.next := Correlation.Request(
                                                    Correlation.Completed(resp),
                                                    Correlation.Resolved(Correlation.Answered(resp)))]
            && t.pending == s.pending
  {
    hide DartCodec.ParseResponse;
    assert s.pending + {s.next} - {s.next} == s.pending;
  }

  /** The service after a request was issued and sent, and the first answer line has arrived. */
  function AfterFirstLine(s: Correlation.Service, line: string): Correlation.Service {
    var waiting := Correlation.OnDelivered(Correlation.OnIssue(s), s.next);
    Correlation.Next(waiting, Correlation.Line(Stripped(line)))
  }

  /**
   After any history of the client, and whatever the ECU's state and injections: the next request is
   completed by the first line that comes back for it, with the response of the first event and its own
   id, and no other request is touched.
   */
  lemma ClientGetsItsAnswer(trace: seq<Correlation.Event>, e: EcuState, r: Agreement.DartRequest, tool: string)
    requires Correlation.Legal(trace)
    requires var s := Correlation.Run(trace);
             && s.listening && s.next <= DartCodec.INT64_MAX && Sendable(s.next, r)
             && Events(e, s.next, r) != [] && EncodeResponse(Events(e, s.next, r)[0]).Ok?
    ensures var s := Correlation.Run(trace);
            var answers, resp := Answers(e, s.next, r, tool), ResponseOf(Events(e, s.next, r)[0]);
            && answers != [] && answers[0].Ok? && resp.Ok? && resp.value.id == s.next
            && var t := AfterFirstLine(s, answers[0].value);
               && t.pending == s.pending && s.next !in s.requests
               && t.requests == s.requests[s.next := Correlation.Request(
                                                       Correlation.Completed(resp.value),
                                                       Correlation.Resolved(Correlation.Answered(resp.value)))]
  {
    hide FakeDispatch, EncodeResponse, ResponseOf, Answers, Agreement.Printed, Stripped,
         DartCodec.ParseResponse, Correlation.Next, Correlation.Legal, Correlation.Run;
    var s := Correlation.Run(trace);
    Correlation.EveryTraceKeepsInv(trace);
    var v := Events(e, s.next, r)[0];
    AnswersEncodeEvents(e, s.next, r, tool);
    EventsCarryTheId(e, Agreement.Intended(s.next, r));
    IntendedId(s.next, r);
    ClientReads(v);
    FreshRequestCompletes(s, Stripped(EncodeResponse(v).value), ResponseOf(v).value);
  }

  lemma IntendedId(id: nat, r: Agreement.DartRequest)
    ensures Agreement.Intended(id, r).id == id
  {}

  /** With nothing injected, an answered request has one event, and it is terminal: its own answer. */
  lemma QuietEcuAnswersOnce(e: EcuState, id: nat, r: Agreement.DartRequest)
    requires NothingInjected(e) && Sendable(id, r)
    ensures WellFormedCmd(Agreement.Intended(id, r))
    ensures var c := Agreement.Intended(id, r);
            if Unanswered(e, c) then Events(e, id, r) == []
            else |Events(e, id, r)| == 1 && IsTerminalOf(Events(e, id, r)[0], c)
  {
    hide FakeDispatch, Agreement.Printed, Front.Dispatch;
    Agreement.DartCommandsAreQueued(id, r, "");
    AnsweredOnce(e, Agreement.Intended(id, r));
  }

  /** The request is met by a response-pending, injected ahead of the answer or in place of it. */
  predicate MetByPending(e: EcuState, r: Agreement.DartRequest) {
    && !r.TpStart? && !r.TpStop? && !e.injectDrop
    && (e.injectPending || e.injectNrc == Some(0x78))
  }

  /**
   The client is documented to complete a request with its terminal response. It is completed with a
   response-pending instead exactly when one is injected into a request the ECU gets to see, whatever
   the state of the ECU.
   */
  lemma PendingComesFirstIff(e: EcuState, id: nat, r: Agreement.DartRequest)
    requires Sendable(id, r)
    ensures (Events(e, id, r) != [] && IsPending(Events(e, id, r)[0])) <==> MetByPending(e, r)
    ensures MetByPending(e, r) ==>
              ResponseOf(Events(e, id, r)[0])
              == Ok(NrcLine(id, RequestBytes(Agreement.Intended(id, r))[0], 0x78))
  {
    hide FakeDispatch, Agreement.Printed, Front.Dispatch, IsPending;
    var c := Agreement.Intended(id, r);
    Agreement.DartCommandsAreQueued(id, r, "");
    PreambleIsPending(e, c);
    if IsTp(c.kind) || e.injectDrop {
      ImmediateAnswer(e, c);
    } else if e.injectNrc == Some(0x78) {
      Injected78IsNeverTerminal(e, c);
      FirstOfInjected78(e, c);
    } else {
      AnsweredOnce(e, c);
      FirstOfOneAnswer(e, c);
    }
  }

  lemma FirstOfOneAnswer(e: EcuState, c: Cmd)
    requires WellFormedCmd(c) && OneAnswer(FakeDispatch(e, c, false).1, e, c)
    requires !IsTp(c.kind) && !e.injectDrop
    ensures var events := FakeDispatch(e, c, false).1;
            && ((events != [] && IsPending(events[0])) <==> e.injectPending)
            && (e.injectPending ==> ResponseOf(events[0]) == Ok(NrcLine(c.id, RequestBytes(c)[0], 0x78)))
  {
    hide FakeDispatch;
    PreambleIsPending(e, c);
    var events := FakeDispatch(e, c, false).1;
    if e.injectPending {
      assert events[..1] == Preamble(e, c);
      assert events[0] == Preamble(e, c)[0];
    }
  }

  lemma FirstOfInjected78(e: EcuState, c: Cmd)
    requires WellFormedCmd(c) && !IsTp(c.kind) && !e.injectDrop && e.injectNrc == Some(0x78)
    ensures var events := FakeDispatch(e, c, false).1;
            events != [] && ResponseOf(events[0]) == Ok(NrcLine(c.id, RequestBytes(c)[0], 0x78))
  {
    InjectedNrcOnly(e.(injectPending := false), RequestBytes(c));
  }

  // ---------------------------------------------------------------- text to text

  /** A dropped request: the one line that comes back is read as `ERR 504 ecu_timeout`. */
  lemma DropIsReported(e: EcuState, id: nat, r: Agreement.DartRequest, tool: string)
    requires Sendable(id, r) && !r.TpStart? && !r.TpStop? && e.injectDrop
    ensures var answers := Answers(e, id, r, tool);
            && |answers| == 1
            && EndToEnd.ReadsBack(answers[0], ErrLine(id, 504, "ecu_timeout"), |Text.Dec(id)| + 21)
  {
    hide Agreement.Printed, EncodeResponse, EndToEnd.ReadsBack, Answers, Front.Dispatch;
    AnswersEncodeEvents(e, id, r, tool);
    Agreement.DartCommandsAreQueued(id, r, tool);
    DroppedEvents(e, Agreement.Intended(id, r));
    EndToEnd.TimeoutReadsBack(id, Agreement.Intended(id, r).kind, []);
  }

  /** TP START and TP STOP: the one line that comes back is `OK TP`, it always fits, and the ECU is not involved. */
  lemma TpIsReported(e: EcuState, id: nat, r: Agreement.DartRequest, tool: string)
    requires Sendable(id, r) && (r.TpStart? || r.TpStop?)
    ensures EndToEnd.Exchange(e, Agreement.Printed(id, r), tool).0 == e
    ensures var answers := Answers(e, id, r, tool);
            && |answers| == 1 && answers[0].Ok? && ParseResponse(answers[0].value) == Ok(OkTpLine(id))
  {
    hide ParseResponse, Front.Dispatch, Text.Dec;
    AnswersEncodeEvents(e, id, r, tool);
    Agreement.DartCommandsAreQueued(id, r, tool);
    assert |Body(OkTpLine(id))| == |Text.Dec(id)| + 6;
    ResponseRoundTrip(OkTpLine(id));
  }
}
