/**
 The Dart client's request correlation (flutter_app/lib/services/diag_service.dart): a map of pending
 completers keyed by id, raced over by sends, lines, timers, drops and disposal.
 */
module Correlation {
  import opened Base
  import opened Wire
  import DartCodec

  datatype Completer = Open | Completed(resp: Response) | Errored

  datatype Outcome = Answered(resp: Response) | SendFailed | TimedOut | Dropped

  /** Where `_sendAndWait` is suspended, or what it returned or threw. */
  datatype Phase = Sending | Waiting | Resolved(outcome: Outcome)

  datatype Request = Request(completer: Completer, phase: Phase)

  datatype Service = Service(next: nat, pending: set<nat>, requests: map<nat, Request>, listening: bool)

  const START := Service(1, {}, map[], true)

  datatype Event =
    | Issue                     // a request is encoded, registered and handed to the transport
    | Delivered(id: nat)        // `send` returns
    | Refused(id: nat)          // `send` throws
    | Line(text: string)        // the transport delivers a line
    | Timer(id: nat)            // the request timeout fires
    | Drop(done: bool)          // the line stream reports an error, or ends
    | CancelSubscription        // first half of `dispose`
    | FailPending               // second half of `dispose`

  // ---------------------------------------------------------------- the handlers, as functions

  /** `completer.complete` or `completeError`; a waiting request wakes up with it. */
  function Complete(r: Request, c: Completer): Request
    requires !c.Open?
  {
    Request(c, if r.phase == Waiting then Resolved(Verdict(c)) else r.phase)
  }

  function Verdict(c: Completer): Outcome
    requires !c.Open?
  {
    match c
    case Completed(resp) => Answered(resp)
    case Errored => Dropped
  }

  function OnIssue(s: Service): Service {
    s.(next := s.next + 1, pending := s.pending + {s.next}, requests := s.requests[s.next := Request(Open, Sending)])
  }

  function OnDelivered(s: Service, id: nat): Service {
    if id in s.requests && s.requests[id].phase == Sending then
      var c := s.requests[id].completer;
      s.(requests := s.requests[id := Request(c, if c.Open? then Waiting else Resolved(Verdict(c)))])
    else s
  }

  function OnRefused(s: Service, id: nat): Service {
    if id in s.requests && s.requests[id].phase == Sending then
      s.(pending := s.pending - {id},
         requests := s.requests[id := Request(s.requests[id].completer, Resolved(SendFailed))])
    else s
  }

  function OnTimer(s: Service, id: nat): Service {
    if id in s.requests && s.requests[id].phase == Waiting then
      s.(pending := s.pending - {id},
         requests := s.requests[id := Request(s.requests[id].completer, Resolved(TimedOut))])
    else s
  }

  /** `_onLine`: unparsable lines and id 0 are ignored, the first line of a pending id completes it. */
  function OnLine(s: Service, text: string): Service {
    match DartCodec.ParseResponse(text)
    case None => s
    case Some(resp) =>
      if resp.id <= 0 || resp.id !in s.pending || resp.id !in s.requests then s
      else
        var r := s.requests[resp.id];
        s.(pending := s.pending - {resp.id},
           requests := if r.completer.Open? then s.requests[resp.id := Complete(r, Completed(resp))] else s.requests)
  }

  /** `_failAllPending`. */
  function FailAll(s: Service): Service {
    s.(pending := {},
       requests := map id | id in s.requests ::
                     if id in s.pending && s.requests[id].completer.Open? then Complete(s.requests[id], Errored)
                     else s.requests[id])
  }

  function Next(s: Service, ev: Event): Service {
    match ev
    case Issue => OnIssue(s)
    case Delivered(id) => OnDelivered(s, id)
    case Refused(id) => OnRefused(s, id)
    case Line(text) => if s.listening then OnLine(s, text) else s
    case Timer(id) => OnTimer(s, id)
    case Drop(done) => if s.listening then FailAll(s).(listening := !done) else s
    case CancelSubscription => s.(listening := false)
    case FailPending => FailAll(s)
  }

  /** The events the runtime can deliver in a state. */
  predicate Possible(s: Service, ev: Event) {
    match ev
    case Delivered(id) => id in s.requests && s.requests[id].phase == Sending
    case Refused(id) => id in s.requests && s.requests[id].phase == Sending
    case Timer(id) => id in s.requests && s.requests[id].phase == Waiting
    case Line(_) => s.listening
    case Drop(_) => s.listening
    case _ => true
  }

  function Run(trace: seq<Event>): Service {
    if trace == [] then START else Next(Run(trace[..|trace| - 1]), trace[|trace| - 1])
  }

  predicate Legal(trace: seq<Event>) {
    trace == [] ||
    var front := trace[..|trace| - 1];
    Legal(front) && Possible(Run(front), trace[|trace| - 1])
  }

  // ---------------------------------------------------------------- the class

  class DiagService {
    const seqAlloc: SeqAllocator
    var pending: set<nat>
    var requests: map<nat, Request>
    var listening: bool

    ghost predicate Valid()
      reads this, seqAlloc
    {
      seqAlloc.Valid() && pending <= requests.Keys
    }

    function State(): Service
      reads this, seqAlloc
    {
      Service(seqAlloc.next, pending, requests, listening)
    }

    /** A service that has been started on its transport. */
    constructor ()
      ensures Valid() && fresh(seqAlloc) && State() == START
    {
      var alloc := new SeqAllocator();
      seqAlloc := alloc;
      pending, requests, listening := {}, map[], true;
    }

    method IssueRequest() returns (id: nat)
      requires Valid()
      modifies this, seqAlloc
      ensures Valid() && State() == OnIssue(old(State())) && id == old(seqAlloc.next)
    {
      id := seqAlloc.Next();
      pending := pending + {id};
      requests := requests[id := Request(Open, Sending)];
    }

    method SendReturned(id: nat)
      requires Valid()
      modifies this
      ensures Valid() && State() == OnDelivered(old(State()), id)
    {
      if id in requests && requests[id].phase == Sending {
        var c := requests[id].completer;
        requests := requests[id := Request(c, if c.Open? then Waiting else Resolved(Verdict(c)))];
      }
    }

    method SendThrew(id: nat)
      requires Valid()
      modifies this
      ensures Valid() && State() == OnRefused(old(State()), id)
    {
      if id in requests && requests[id].phase == Sending {
        pending := pending - {id};
        requests := requests[id := Request(requests[id].completer, Resolved(SendFailed))];
      }
    }

    method TimeoutFired(id: nat)
      requires Valid()
      modifies this
      ensures Valid() && State() == OnTimer(old(State()), id)
    {
      if id in requests && requests[id].phase == Waiting {
        pending := pending - {id};
        requests := requests[id := Request(requests[id].completer, Resolved(TimedOut))];
      }
    }

    method LineReceived(text: string)
      requires Valid()
      modifies this
      ensures Valid() && State() == OnLine(old(State()), text)
    {
      var resp := DartCodec.ParseResponse(text);
      if resp.None? || resp.value.id <= 0 {
        return;
      }
      var id := resp.value.id;
      if id in pending {
        pending := pending - {id};
        var r := requests[id];
        if r.completer.Open? {
          requests := requests[id := Complete(r, Completed(resp.value))];
        }
      }
    }

    /** The loop over the pending completers. */
    method FailAllPending()
      requires Valid()
      modifies this
      ensures Valid() && State() == FailAll(old(State()))
    {
      var todo := pending;
      ghost var before := requests;
      while todo != {}
        invariant todo <= pending == old(pending) && listening == old(listening) && seqAlloc.Valid()
        invariant requests.Keys == before.Keys
        invariant forall id :: id in before ==>
                                 requests[id] == if id in pending && id !in todo && before[id].completer.Open?
                                                 then Complete(before[id], Errored) else before[id]
        decreases todo
      {
        var id :| id in todo;
        if requests[id].completer.Open? {
          requests := requests[id := Complete(requests[id], Errored)];
        }
        todo := todo - {id};
      }
      pending := {};
    }

    method StreamDropped(done: bool)
      requires Valid() && listening
      modifies this
      ensures Valid() && State() == Next(old(State()), Drop(done))
    {
      FailAllPending();
      listening := !done;
    }

    /** `dispose` up to its await: no line reaches the service any more, but requests stay pending. */
    method DisposeStart()
      requires Valid()
      modifies this`listening
      ensures Valid() && State() == Next(old(State()), CancelSubscription)
    {
      listening := false;
    }

    /** `dispose` after its await. */
    method DisposeResume()
      requires Valid()
      modifies this
      ensures Valid() && State() == Next(old(State()), FailPending)
    {
      FailAllPending();
    }
  }

  // ---------------------------------------------------------------- what ends a request

  function Issued(trace: seq<Event>): nat {
    if trace == [] then 0
    else Issued(trace[..|trace| - 1]) + if trace[|trace| - 1].Issue? then 1 else 0
  }

  predicate LineFor(text: string, id: nat) {
    DartCodec.ParseResponse(text).Some? && DartCodec.ParseResponse(text).value.id == id
  }

  /** The event ends request `id`, whatever the state of the service. */
  predicate Ends(ev: Event, id: nat) {
    match ev
    case Line(text) => LineFor(text, id)
    case Refused(k) => k == id
    case Timer(k) => k == id
    case Drop(_) => true
    case FailPending => true
    case _ => false
  }

  /** The first event after the issue of `id` that ends it, read off the trace alone. */
  function EndOf(trace: seq<Event>, id: nat): Option<Event> {
    if trace == [] then None
    else
      var front, last := trace[..|trace| - 1], trace[|trace| - 1];
      if EndOf(front, id).Some? then EndOf(front, id)
      else if 1 <= id <= Issued(front) && Ends(last, id) then Some(last)
      else None
  }

  /** The completer that the end of the request dictates. */
  predicate Explained(r: Request, pending: bool, end: Option<Event>) {
    match end
    case None => pending && r.completer == Open && !r.phase.Resolved?
    case Some(Line(text)) =>
      && !pending && DartCodec.ParseResponse(text).Some?
      && r.completer == Completed(DartCodec.ParseResponse(text).value)
      && (r.phase == Sending || r.phase == Resolved(SendFailed) || r.phase == Resolved(Answered(r.completer.resp)))
    case Some(Refused(_)) => !pending && r.completer == Open && r.phase == Resolved(SendFailed)
    case Some(Timer(_)) => !pending && r.completer == Open && r.phase == Resolved(TimedOut)
    case Some(_) =>
      && !pending && r.completer == Errored
      && (r.phase == Sending || r.phase == Resolved(SendFailed) || r.phase == Resolved(Dropped))
  }

  ghost predicate Inv(s: Service, trace: seq<Event>) {
    && s.next == Issued(trace) + 1
    && (forall id :: id in s.requests <==> 1 <= id < s.next)
    && (forall id :: id in s.pending ==> id in s.requests)
    && (forall id :: id in s.requests ==> Explained(s.requests[id], id in s.pending, EndOf(trace, id)))
  }

  lemma NotIssuedNotEnded(trace: seq<Event>, id: nat)
    requires id > Issued(trace) || id == 0
    ensures EndOf(trace, id).None?
  {
    if trace != [] {
      NotIssuedNotEnded(trace[..|trace| - 1], id);
    }
  }

  lemma NextKeepsInv(s: Service, trace: seq<Event>, ev: Event)
    requires Inv(s, trace) && Possible(s, ev)
    ensures Inv(Next(s, ev), trace + [ev])
  {
    var t, more := Next(s, ev), trace + [ev];
    assert more[..|trace|] == trace;
    if ev.Issue? {
      NotIssuedNotEnded(trace, s.next);
    }
    forall id | id in t.requests
      ensures Explained(t.requests[id], id in t.pending, EndOf(more, id))
    {
      assert id in s.requests || (ev.Issue? && id == s.next);
    }
  }

  lemma {:induction false} EveryTraceKeepsInv(trace: seq<Event>)
    requires Legal(trace)
    ensures Inv(Run(trace), trace)
    decreases |trace|
  {
    if trace != [] {
      var front, last := trace[..|trace| - 1], trace[|trace| - 1];
      EveryTraceKeepsInv(front);
      NextKeepsInv(Run(front), front, last);
      assert front + [last] == trace;
    }
  }

  // ---------------------------------------------------------------- main results

  /** Where a request stands. */
  datatype Fate = StillPending | WasAnswered | WasRefused | HasTimedOut | WasDropped

  function FateOf(r: Request): Fate {
    match r.phase
    case Resolved(Answered(_)) => WasAnswered
    case Resolved(SendFailed) => WasRefused
    case Resolved(TimedOut) => HasTimedOut
    case Resolved(Dropped) => WasDropped
    case _ =>
      match r.completer
      case Open => StillPending
      case Completed(_) => WasAnswered
      case Errored => WasDropped
  }

  function WithFate(s: Service, f: Fate): set<nat> {
    set id | id in s.requests && FateOf(s.requests[id]) == f
  }

  /**
   In every interleaving the issued ids are the disjoint union of the pending, answered, send-failed,
   timed-out and dropped ones, and the pending map holds exactly the first kind.
   */
  lemma IssuedIdsArePartitioned(trace: seq<Event>)
    requires Legal(trace)
    ensures var s := Run(trace);
            && (forall id :: id in s.requests <==> 1 <= id <= Issued(trace))
            && s.pending == WithFate(s, StillPending)
            && s.requests.Keys == s.pending + WithFate(s, WasAnswered) + WithFate(s, WasRefused)
                                  + WithFate(s, HasTimedOut) + WithFate(s, WasDropped)
            && s.pending !! WithFate(s, WasAnswered) !! WithFate(s, WasRefused)
                         !! WithFate(s, HasTimedOut) !! WithFate(s, WasDropped)
  {
    hide Run, Legal, EndOf, Issued;
    EveryTraceKeepsInv(trace);
  }

  /** Event `j` ends request `id`, after its issue. */
  predicate EndsAt(trace: seq<Event>, id: nat, j: nat)
    requires j < |trace|
  {
    1 <= id <= Issued(trace[..j]) && Ends(trace[j], id)
  }

  /** `EndOf` is the first such event. */
  lemma {:induction false} EndOfIsFirst(trace: seq<Event>, id: nat)
    ensures EndOf(trace, id).None? ==> forall j :: 0 <= j < |trace| ==> !EndsAt(trace, id, j)
    ensures EndOf(trace, id).Some? ==>
              exists j :: 0 <= j < |trace| && trace[j] == EndOf(trace, id).value && EndsAt(trace, id, j)
                          && forall k :: 0 <= k < j ==> !EndsAt(trace, id, k)
    decreases |trace|
  {
    if trace != [] {
      var front, n := trace[..|trace| - 1], |trace| - 1;
      EndOfIsFirst(front, id);
      forall j | 0 <= j < n
        ensures EndsAt(trace, id, j) == EndsAt(front, id, j)
      {
        assert trace[..j] == front[..j];
      }
      if EndOf(front, id).Some? {
        var j :| 0 <= j < |front| && front[j] == EndOf(front, id).value && EndsAt(front, id, j)
                 && forall k :: 0 <= k < j ==> !EndsAt(front, id, k);
        assert trace[j] == front[j] && EndsAt(trace, id, j);
      } else if EndOf(trace, id).Some? {
        assert EndsAt(trace, id, n);
      }
    }
  }

  /**
   A request is completed with a response exactly when the first event that ended it was a line carrying
   its id, and then with that line; it is errored exactly when that event was a drop or the disposal.
   */
  lemma CompletedByFirstLine(trace: seq<Event>, id: nat, resp: Response)
    requires Legal(trace) && 1 <= id <= Issued(trace)
    ensures id in Run(trace).requests
    ensures var r, end := Run(trace).requests[id], EndOf(trace, id);
            && (r.completer == Completed(resp) <==>
                  end.Some? && end.value.Line? && DartCodec.ParseResponse(end.value.text) == Some(resp))
            && (r.completer.Errored? <==> end.Some? && (end.value.Drop? || end.value.FailPending?))
            && (r.completer.Completed? ==> r.completer.resp.id == id)
            && (r.phase == Resolved(Answered(resp)) ==> r.completer == Completed(resp))
            && (id in Run(trace).pending <==> end.None?)
  {
    EveryTraceKeepsInv(trace);
    EndOfIsFirst(trace, id);
  }

  lemma StepKeepsResolved(s: Service, trace: seq<Event>, ev: Event, id: nat)
    requires Inv(s, trace) && Possible(s, ev) && id in s.requests && s.requests[id].phase.Resolved?
    ensures id in Next(s, ev).requests && Next(s, ev).requests[id] == s.requests[id]
  {}

  /** A request completes at most once: whatever happens later, its outcome stays. */
  lemma {:induction false} OutcomeIsFinal(trace: seq<Event>, n: nat, id: nat)
    requires Legal(trace) && n <= |trace| && id in Run(trace[..n]).requests
    requires Run(trace[..n]).requests[id].phase.Resolved?
    ensures id in Run(trace).requests && Run(trace).requests[id] == Run(trace[..n]).requests[id]
    decreases |trace|
  {
    if n == |trace| {
      assert trace[..n] == trace;
    } else {
      var front, last := trace[..|trace| - 1], trace[|trace| - 1];
      assert front[..n] == trace[..n];
      OutcomeIsFinal(front, n, id);
      EveryTraceKeepsInv(front);
      StepKeepsResolved(Run(front), front, last, id);
    }
  }

  /**
   After any history a line matters exactly when it parses and carries the id of a pending request. Id 0
   is never pending: unsolicited lines change nothing.
   */
  lemma LineMattersIff(trace: seq<Event>, text: string)
    requires Legal(trace) && Run(trace).listening
    ensures var s := Run(trace);
            && 0 !in s.pending
            && (Next(s, Line(text)) != s <==> exists id :: id in s.pending && LineFor(text, id))
  {
    hide Run, Legal, EndOf, DartCodec.ParseResponse;
    EveryTraceKeepsInv(trace);
    var s := Run(trace);
    if id :| id in s.pending && LineFor(text, id) {
      assert id !in Next(s, Line(text)).pending;
    }
  }

  /** A drop or a disposal empties the pending map, failing exactly the requests that were in it. */
  lemma DropFailsThePending(trace: seq<Event>, ev: Event)
    requires Legal(trace + [ev]) && (ev.Drop? || ev == FailPending)
    ensures var s, t := Run(trace), Run(trace + [ev]);
            && t.pending == {} && t.requests.Keys == s.requests.Keys
            && forall id :: id in s.requests ==>
                 if id in s.pending then FateOf(t.requests[id]) == WasDropped else t.requests[id] == s.requests[id]
  {
    assert (trace + [ev])[..|trace|] == trace;
    EveryTraceKeepsInv(trace);
  }

  /** The events after which no line is received any more. */
  predicate Ended(ev: Event) {
    ev == Drop(true) || ev == CancelSubscription
  }

  /** The service listens until the stream ends or `dispose` is called: an error alone does not stop it. */
  lemma {:induction false} ListensUntilEnded(trace: seq<Event>)
    ensures Run(trace).listening <==> forall i :: 0 <= i < |trace| ==> !Ended(trace[i])
    decreases |trace|
  {
    if trace != [] {
      var front, last := trace[..|trace| - 1], trace[|trace| - 1];
      hide Run;
      ListensUntilEnded(front);
      RunSnoc(trace);
      StepListens(Run(front), last);
      assert forall i :: 0 <= i < |front| ==> front[i] == trace[i];
    } else {
      assert Run([]) == START;
    }
  }

  lemma RunSnoc(trace: seq<Event>)
    requires trace != []
    ensures Run(trace) == Next(Run(trace[..|trace| - 1]), trace[|trace| - 1])
  {}

  lemma StepListens(s: Service, ev: Event)
    ensures Next(s, ev).listening <==> s.listening && !Ended(ev)
  {
    hide DartCodec.ParseResponse;
  }
}
