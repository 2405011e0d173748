/**
 The Dart client's connection lifecycle (flutter_app/lib/state/app_state.dart): the synchronous
 segments between awaits update shared fields, while connects, reconnect loops, drops and user calls
 interleave freely.
 */
module AppState {
  import opened Base

  datatype Status = Disconnected | Connecting | Connected | Reconnecting | Failed

  /** The fields of `AppState` that the lifecycle uses. Transports and services are numbered. */
  datatype Fields = Fields(
    status: Status,
    host: Option<string>,
    port: Option<int>,
    transport: Option<nat>,
    service: Option<nat>,
    dropSub: Option<nat>,
    reconnecting: bool,
    reconnectAttempt: nat)

  const FRESH := Fields(Disconnected, None, None, None, None, None, false, 0)

  // ---------------------------------------------------------------- segments, as functions

  /** `_installConnection`. */
  function Install(f: Fields, t: nat): Fields {
    f.(transport := Some(t), service := Some(t), dropSub := Some(t))
  }

  /** `connect` after its await. */
  function FinishConnect(f: Fields, host: string, port: int, t: nat, ok: bool): Fields {
    if ok then Install(f, t).(host := Some(host), port := Some(port), status := Connected)
    else f.(status := Failed)
  }

  /** `_handleDrop`: the fields, and where the reconnect loop it starts will connect to. */
  function HandleDrop(f: Fields, maxAttempts: int): (Fields, Option<(string, int)>) {
    if f.host.None? || f.port.None? || f.reconnecting then (f, None)
    else
      var g := f.(service := None, transport := None, dropSub := None);
      if maxAttempts <= 0 then (g.(status := Failed), None)
      else (g.(status := Reconnecting, reconnectAttempt := 0, reconnecting := true), Some((f.host.value, f.port.value)))
  }

  /** How a segment of the reconnect loop ends. */
  datatype LoopNext = TryNow | Retry | Discard | Finished

  /** The reconnect loop after its delay. */
  function Wake(f: Fields, attempt: nat): (Fields, LoopNext) {
    if f.host.None? then (f.(reconnecting := false), Finished)
    else (f.(reconnectAttempt := attempt + 1), TryNow)
  }

  /** The reconnect loop after a connection attempt. */
  function AfterAttempt(f: Fields, attempt: nat, t: nat, ok: bool, maxAttempts: int): (Fields, LoopNext) {
    if !ok then
      if attempt + 1 < maxAttempts then (f, Retry)
      else if f.host.Some? then
        (f.(status := Failed, reconnectAttempt := 0, host := None, port := None, reconnecting := false), Finished)
      else (f.(reconnecting := false), Finished)
    else if f.host.None? then (f, Discard)
    else (Install(f, t).(status := Connected, reconnectAttempt := 0, reconnecting := false), Finished)
  }

  // ---------------------------------------------------------------- the class

  class App {
    const maxAttempts: int
    var status: Status
    var host: Option<string>
    var port: Option<int>
    var transport: Option<nat>
    var service: Option<nat>
    var dropSub: Option<nat>
    var reconnecting: bool
    var reconnectAttempt: nat

    function State(): Fields
      reads this
    {
      Fields(status, host, port, transport, service, dropSub, reconnecting, reconnectAttempt)
    }

    constructor (maxAttempts: int)
      ensures State() == FRESH && this.maxAttempts == maxAttempts
    {
      this.maxAttempts := maxAttempts;
      status, host, port := Disconnected, None, None;
      transport, service, dropSub, reconnecting, reconnectAttempt := None, None, None, false, 0;
    }

    method InstallConnection(t: nat)
      modifies this`transport, this`service, this`dropSub
      ensures State() == Install(old(State()), t)
    {
      service := Some(t);
      transport := Some(t);
      dropSub := Some(t);
    }

    method ConnectStart()
      modifies this`status
      ensures State() == old(State()).(status := Connecting)
    {
      status := Connecting;
    }

    method ConnectResume(h: string, p: int, t: nat, ok: bool)
      modifies this
      ensures State() == FinishConnect(old(State()), h, p, t, ok)
    {
      if !ok {
        status := Failed;
        return;
      }
      InstallConnection(t);
      host, port := Some(h), Some(p);
      status := Connected;
    }

    /** Everything `disconnect` does before its awaits. */
    method Disconnect()
      modifies this
      ensures State() == FRESH
    {
      host, port, reconnecting, reconnectAttempt := None, None, false, 0;
      service, transport, dropSub := None, None, None;
      status := Disconnected;
    }

    method OnDrop() returns (loop: Option<(string, int)>)
      modifies this
      ensures (State(), loop) == HandleDrop(old(State()), maxAttempts)
    {
      if host.None? || port.None? || reconnecting {
        return None;
      }
      var h, p := host.value, port.value;
      service, transport, dropSub := None, None, None;
      if maxAttempts <= 0 {
        status := Failed;
        return None;
      }
      status := Reconnecting;
      reconnectAttempt := 0;
      reconnecting := true;
      return Some((h, p));
    }

    method LoopWake(attempt: nat) returns (next: LoopNext)
      modifies this
      ensures (State(), next) == Wake(old(State()), attempt)
    {
      if host.None? {
        reconnecting := false;
        return Finished;
      }
      reconnectAttempt := attempt + 1;
      return TryNow;
    }

    method LoopResume(attempt: nat, t: nat, ok: bool) returns (next: LoopNext)
      modifies this
      ensures (State(), next) == AfterAttempt(old(State()), attempt, t, ok, maxAttempts)
    {
      if !ok {
        if attempt + 1 < maxAttempts {
          return Retry;
        }
        if host.Some? {
          status := Failed;
          reconnectAttempt := 0;
          host, port := None, None;
        }
        reconnecting := false;
        return Finished;
      }
      if host.None? {
        return Discard;
      }
      InstallConnection(t);
      status := Connected;
      reconnectAttempt := 0;
      reconnecting := false;
      return Finished;
    }
  }

  // ---------------------------------------------------------------- interleaving

  /** A suspended coroutine and what it will use when it resumes. */
  datatype Task =
    | ConnectTask(host: string, port: int, t: nat)
    | DelayTask(host: string, port: int, attempt: nat)
    | AttemptTask(host: string, port: int, attempt: nat, t: nat)
    | DiscardTask

  datatype World = World(
    app: Fields,
    tasks: map<nat, Task>,
    next: nat,                            // the next unused task or transport number
    installed: seq<(string, int)>,        // the peers of the transports installed so far
    attempts: map<nat, nat>)              // connection attempts, per reconnect loop

  /** `Drop` is liberal: any transport ever installed may still report its end, at any time. */
  datatype Step =
    | ConnectCall(host: string, port: int)
    | DisconnectCall
    | Drop
    | Resume(task: nat, ok: bool)

  function Next(w: World, s: Step, maxAttempts: int): World {
    match s
    case ConnectCall(host, port) =>
      w.(app := w.app.(status := Connecting), tasks := w.tasks[w.next := ConnectTask(host, port, w.next)],
         next := w.next + 1)
    case DisconnectCall => w.(app := FRESH)
    case Drop =>
      var (f, loop) := HandleDrop(w.app, maxAttempts);
      if loop.None? then w.(app := f)
      else
        w.(app := f, tasks := w.tasks[w.next := DelayTask(loop.value.0, loop.value.1, 0)],
           attempts := w.attempts[w.next := 0], next := w.next + 1)
    case Resume(id, ok) => if id in w.tasks then ResumeTask(w, id, ok, maxAttempts) else w
  }

  function ResumeTask(w: World, id: nat, ok: bool, maxAttempts: int): World
    requires id in w.tasks
  {
    match w.tasks[id]
    case ConnectTask(host, port, t) =>
      w.(app := FinishConnect(w.app, host, port, t, ok), tasks := w.tasks - {id},
         installed := if ok then w.installed + [(host, port)] else w.installed)
    case DelayTask(host, port, attempt) =>
      var (f, outcome) := Wake(w.app, attempt);
      if outcome == TryNow then
        w.(app := f, tasks := w.tasks[id := AttemptTask(host, port, attempt, w.next)], next := w.next + 1,
           attempts := w.attempts[id := (if id in w.attempts then w.attempts[id] else 0) + 1])
      else w.(app := f, tasks := w.tasks - {id})
    case AttemptTask(host, port, attempt, t) =>
      var (f, outcome) := AfterAttempt(w.app, attempt, t, ok, maxAttempts);
      w.(app := f,
         tasks := match outcome
                  case Retry => w.tasks[id := DelayTask(host, port, attempt + 1)]
                  case Discard => w.tasks[id := DiscardTask]
                  case _ => w.tasks - {id},
         installed := if ok && w.app.host.Some? then w.installed + [(host, port)] else w.installed)
    case DiscardTask => w.(app := w.app.(reconnecting := false), tasks := w.tasks - {id})
  }

  function Run(w: World, steps: seq<Step>, maxAttempts: int): World {
    if steps == [] then w else Next(Run(w, steps[..|steps| - 1], maxAttempts), steps[|steps| - 1], maxAttempts)
  }

  const START := World(FRESH, map[], 0, [], map[])

  // ---------------------------------------------------------------- every run

  predicate ConnectedIsComplete(f: Fields) {
    f.status == Connected ==>
      f.service.Some? && f.transport == f.dropSub == f.service && f.host.Some? && f.port.Some?
  }

  predicate LoopSuspended(w: World) {
    exists id :: id in w.tasks && (w.tasks[id].DelayTask? || w.tasks[id].AttemptTask?)
  }

  /** `connecting` and `reconnecting` are shown only while something is under way. */
  predicate StatusIsTrue(w: World) {
    && (w.app.status == Connecting ==> ConnectInFlight(w))
    && (w.app.status == Reconnecting ==> w.app.host.Some? && LoopSuspended(w) && NoConnection(w.app))
    && (w.app.reconnecting ==> w.app.host.Some?)
  }

  predicate NoConnection(f: Fields) {
    f.service.None? && f.transport.None? && f.dropSub.None?
  }

  ghost predicate Inv(w: World, maxAttempts: int) {
    && ConnectedIsComplete(w.app)
    && (w.app.host.Some? <==> w.app.port.Some?)
    && (forall id :: id in w.tasks ==> id < w.next)
    && (forall id :: id in w.attempts ==> id < w.next)
    && (forall id :: id in w.tasks && w.tasks[id].DelayTask? ==>
                       id in w.attempts && w.attempts[id] == w.tasks[id].attempt < maxAttempts)
    && (forall id :: id in w.tasks && w.tasks[id].AttemptTask? ==>
                       id in w.attempts && w.attempts[id] == w.tasks[id].attempt + 1 <= maxAttempts)
    && (forall id :: id in w.attempts ==> w.attempts[id] <= maxAttempts)
  }

  lemma CallKeepsInv(w: World, s: Step, maxAttempts: int)
    requires Inv(w, maxAttempts) && !s.Resume?
    ensures Inv(Next(w, s, maxAttempts), maxAttempts)
  {}

  lemma DelayKeepsInv(w: World, id: nat, ok: bool, maxAttempts: int)
    requires Inv(w, maxAttempts) && id in w.tasks && w.tasks[id].DelayTask?
    ensures Inv(ResumeTask(w, id, ok, maxAttempts), maxAttempts)
  {}

  lemma AttemptKeepsInv(w: World, id: nat, ok: bool, maxAttempts: int)
    requires Inv(w, maxAttempts) && id in w.tasks && w.tasks[id].AttemptTask?
    ensures Inv(ResumeTask(w, id, ok, maxAttempts), maxAttempts)
  {}

  lemma OtherTaskKeepsInv(w: World, id: nat, ok: bool, maxAttempts: int)
    requires Inv(w, maxAttempts) && id in w.tasks && (w.tasks[id].ConnectTask? || w.tasks[id].DiscardTask?)
    ensures Inv(ResumeTask(w, id, ok, maxAttempts), maxAttempts)
  {}

  lemma StepKeepsInv(w: World, s: Step, maxAttempts: int)
    requires Inv(w, maxAttempts)
    ensures Inv(Next(w, s, maxAttempts), maxAttempts)
  {
    if !s.Resume? {
      CallKeepsInv(w, s, maxAttempts);
    } else if s.task in w.tasks {
      match w.tasks[s.task]
      case DelayTask(_, _, _) => DelayKeepsInv(w, s.task, s.ok, maxAttempts);
      case AttemptTask(_, _, _, _) => AttemptKeepsInv(w, s.task, s.ok, maxAttempts);
      case _ => OtherTaskKeepsInv(w, s.task, s.ok, maxAttempts);
    }
  }

  lemma {:induction false} EveryRunKeepsInv(steps: seq<Step>, maxAttempts: int)
    ensures Inv(Run(START, steps, maxAttempts), maxAttempts)
    decreases |steps|
  {
    if steps != [] {
      var front := steps[..|steps| - 1];
      EveryRunKeepsInv(front, maxAttempts);
      StepKeepsInv(Run(START, front, maxAttempts), steps[|steps| - 1], maxAttempts);
    }
  }

  /** In every run, `connected` means service, transport, host and port are there. */
  lemma ConnectedMeansUsable(steps: seq<Step>, maxAttempts: int)
    ensures ConnectedIsComplete(Run(START, steps, maxAttempts).app)
  {
    EveryRunKeepsInv(steps, maxAttempts);
  }

  lemma ConnectingStaysTrue(w: World, s: Step, maxAttempts: int)
    requires TasksAreOld(w) && StatusIsTrue(w) && Next(w, s, maxAttempts).app.status == Connecting
    ensures ConnectInFlight(Next(w, s, maxAttempts))
  {
    var v := Next(w, s, maxAttempts);
    if s.ConnectCall? {
      assert v.tasks[w.next].ConnectTask?;
    } else {
      var id :| id in w.tasks && w.tasks[id].ConnectTask?;
      assert s != Resume(id, true) && s != Resume(id, false);
      assert id in v.tasks && v.tasks[id] == w.tasks[id];
    }
  }

  lemma ReconnectingStaysTrue(w: World, s: Step, maxAttempts: int)
    requires TasksAreOld(w) && StatusIsTrue(w) && Next(w, s, maxAttempts).app.status == Reconnecting
    ensures var v := Next(w, s, maxAttempts); v.app.host.Some? && LoopSuspended(v) && NoConnection(v.app)
  {
    var v := Next(w, s, maxAttempts);
    if w.app.status == Reconnecting {
      var id :| id in w.tasks && (w.tasks[id].DelayTask? || w.tasks[id].AttemptTask?);
      assert id in v.tasks && (v.tasks[id].DelayTask? || v.tasks[id].AttemptTask?);
    } else {
      assert w.next in v.tasks && v.tasks[w.next].DelayTask?;
    }
  }

  lemma PeerStaysKnown(w: World, s: Step, maxAttempts: int)
    requires StatusIsTrue(w)
    ensures Next(w, s, maxAttempts).app.reconnecting ==> Next(w, s, maxAttempts).app.host.Some?
  {}

  lemma {:induction false} EveryStatusIsTrue(steps: seq<Step>, maxAttempts: int)
    ensures StatusIsTrue(Run(START, steps, maxAttempts))
    decreases |steps|
  {
    if steps != [] {
      hide Next, LoopSuspended, ConnectInFlight;
      var front, last := steps[..|steps| - 1], steps[|steps| - 1];
      var w := Run(START, front, maxAttempts);
      EveryStatusIsTrue(front, maxAttempts);
      EveryRunKeepsInv(front, maxAttempts);
      PeerStaysKnown(w, last, maxAttempts);
      if Next(w, last, maxAttempts).app.status == Connecting {
        ConnectingStaysTrue(w, last, maxAttempts);
      }
      if Next(w, last, maxAttempts).app.status == Reconnecting {
        ReconnectingStaysTrue(w, last, maxAttempts);
      }
    }
  }

  /**
   In every run, `connecting` means that a connect is in flight, and `reconnecting` that a reconnect loop is
   suspended, the peer is remembered and the lost connection is gone: neither status is left behind by what
   has ended. Without a remembered peer no reconnect is marked as running.
   */
  lemma NoStatusIsLeftBehind(steps: seq<Step>, maxAttempts: int)
    ensures var w := Run(START, steps, maxAttempts);
            && (w.app.status == Connecting ==> ConnectInFlight(w))
            && (w.app.status == Reconnecting ==>
                  w.app.host.Some? && w.app.port.Some? && LoopSuspended(w) && NoConnection(w.app))
            && (w.app.host.None? ==> !w.app.reconnecting)
  {
    EveryStatusIsTrue(steps, maxAttempts);
    EveryRunKeepsInv(steps, maxAttempts);
  }

  /** A refused connect ends in error; peer, connection and reconnect loops stay as they were. */
  lemma RefusedConnect(w: World, id: nat, maxAttempts: int)
    requires id in w.tasks && w.tasks[id].ConnectTask?
    ensures var v := Next(w, Resume(id, false), maxAttempts);
            && v.app.status == Failed && v.app == w.app.(status := Failed)
            && v.tasks == w.tasks - {id} && v.installed == w.installed && v.attempts == w.attempts
  {}

  /** A connect leaves an existing connection alone until it succeeds; refused, it changes the status only. */
  lemma ConnectKeepsConnection(w: World, host: string, port: int, maxAttempts: int)
    requires TasksAreOld(w)
    ensures var v := Next(w, ConnectCall(host, port), maxAttempts);
            && v.app == w.app.(status := Connecting) && v.installed == w.installed
            && v.tasks == w.tasks[w.next := ConnectTask(host, port, w.next)]
            && Next(v, Resume(w.next, false), maxAttempts).app == w.app.(status := Failed)
            && Next(v, Resume(w.next, false), maxAttempts).tasks == w.tasks
  {
    var v := Next(w, ConnectCall(host, port), maxAttempts);
    assert v.tasks - {w.next} == w.tasks;
  }

  /** A connect that succeeds installs its transport and peer, but does not end a reconnect under way. */
  lemma AcceptedConnect(w: World, id: nat, maxAttempts: int)
    requires id in w.tasks && w.tasks[id].ConnectTask?
    ensures var v, c := Next(w, Resume(id, true), maxAttempts), w.tasks[id];
            && v.app.status == Connected && v.app.host == Some(c.host) && v.app.port == Some(c.port)
            && v.app.transport == v.app.service == v.app.dropSub == Some(c.t)
            && v.app.reconnecting == w.app.reconnecting && v.app.reconnectAttempt == w.app.reconnectAttempt
            && v.tasks == w.tasks - {id} && v.installed == w.installed + [(c.host, c.port)]
  {}

  /**
   An attempt that succeeds after a disconnect is discarded: nothing is installed. When it has been disposed
   of, the reconnect mark is cleared, even if by then another loop is running.
   */
  lemma DiscardedAttempt(w: World, later: World, id: nat, maxAttempts: int)
    requires id in w.tasks && w.tasks[id].AttemptTask? && w.app.host.None?
    requires id in later.tasks && later.tasks[id].DiscardTask?
    ensures var v := Next(w, Resume(id, true), maxAttempts);
            v.app == w.app && v.tasks == w.tasks[id := DiscardTask] && v.installed == w.installed
    ensures var v := Next(later, Resume(id, true), maxAttempts);
            && v.app == later.app.(reconnecting := false)
            && v.tasks == later.tasks - {id} && v.installed == later.installed
  {}

  /** In every run, user calls or not, a drop causes at most `maxAttempts` connection attempts. */
  lemma AttemptsAreBounded(steps: seq<Step>, maxAttempts: int, loop: nat)
    requires loop in Run(START, steps, maxAttempts).attempts
    ensures Run(START, steps, maxAttempts).attempts[loop] <= maxAttempts
  {
    EveryRunKeepsInv(steps, maxAttempts);
  }

  // ---------------------------------------------------------------- after disconnect

  predicate ConnectInFlight(w: World) {
    exists id :: id in w.tasks && w.tasks[id].ConnectTask?
  }

  predicate NoConnectCall(steps: seq<Step>) {
    forall i :: 0 <= i < |steps| ==> !steps[i].ConnectCall?
  }

  /** Disconnected, with nothing left that could undo it. */
  predicate Cancelled(w: World) {
    && w.app.status == Disconnected
    && w.app.host.None? && w.app.port.None? && w.app.transport.None? && w.app.service.None?
    && !ConnectInFlight(w)
  }

  lemma StepKeepsCancelled(w: World, s: Step, maxAttempts: int)
    requires Cancelled(w) && !s.ConnectCall?
    ensures Cancelled(Next(w, s, maxAttempts)) && Next(w, s, maxAttempts).installed == w.installed
  {}

  lemma {:induction false} StaysCancelled(w: World, steps: seq<Step>, maxAttempts: int)
    requires Cancelled(w) && NoConnectCall(steps)
    ensures Cancelled(Run(w, steps, maxAttempts)) && Run(w, steps, maxAttempts).installed == w.installed
    decreases |steps|
  {
    if steps != [] {
      var front := steps[..|steps| - 1];
      StaysCancelled(w, front, maxAttempts);
      StepKeepsCancelled(Run(w, front, maxAttempts), steps[|steps| - 1], maxAttempts);
    }
  }

  /**
   After `disconnect()`, wherever the reconnect loops are suspended: unless a connect() is in flight, no
   continuation without a new connect() installs anything, and the status stays disconnected; and if one
   is in flight, its success alone installs a transport.
   */
  lemma DisconnectIsFinalIffNoConnect(w: World, maxAttempts: int)
    ensures var d := Next(w, DisconnectCall, maxAttempts);
            && (!ConnectInFlight(w) ==>
                  forall steps :: NoConnectCall(steps) ==>
                    var v := Run(d, steps, maxAttempts);
                    v.app.status == Disconnected && v.app.transport.None? && v.app.service.None?
                    && v.installed == d.installed)
            && (ConnectInFlight(w) ==>
                  exists id :: var v := Next(d, Resume(id, true), maxAttempts);
                    v.app.status == Connected && v.app.transport.Some? && v.installed != d.installed)
  {
    var d := Next(w, DisconnectCall, maxAttempts);
    if ConnectInFlight(w) {
      var id :| id in w.tasks && w.tasks[id].ConnectTask?;
      var v := Next(d, Resume(id, true), maxAttempts);
      assert v.installed == d.installed + [(w.tasks[id].host, w.tasks[id].port)];
    } else {
      assert Cancelled(d);
      forall steps | NoConnectCall(steps)
        ensures Cancelled(Run(d, steps, maxAttempts)) && Run(d, steps, maxAttempts).installed == d.installed
      {
        StaysCancelled(d, steps, maxAttempts);
      }
    }
  }

  // ---------------------------------------------------------------- after disconnect and another connect

  predicate TasksAreOld(w: World) {
    forall id :: id in w.tasks ==> id < w.next
  }

  /** `disconnect()` and a successful `connect()` to another peer. */
  function Elsewhere(w: World, host: string, port: int): seq<Step> {
    [DisconnectCall, ConnectCall(host, port), Resume(w.next, true)]
  }

  lemma RunSnoc(w: World, steps: seq<Step>, s: Step, maxAttempts: int)
    ensures Run(w, steps + [s], maxAttempts) == Next(Run(w, steps, maxAttempts), s, maxAttempts)
  {
    assert (steps + [s])[..|steps|] == steps;
  }

  lemma RunElsewhereSteps(w: World, host: string, port: int, maxAttempts: int)
    ensures Run(w, Elsewhere(w, host, port), maxAttempts)
         == Next(Next(Next(w, DisconnectCall, maxAttempts), ConnectCall(host, port), maxAttempts),
                 Resume(w.next, true), maxAttempts)
  {
    hide Next, Run;
    RunNothing(w, maxAttempts);
    var s1, s2, s3 := DisconnectCall, ConnectCall(host, port), Resume(w.next, true);
    RunSnoc(w, [], s1, maxAttempts);
    RunSnoc(w, [s1], s2, maxAttempts);
    RunSnoc(w, [s1, s2], s3, maxAttempts);
    assert [] + [s1] == [s1] && [s1] + [s2] == [s1, s2] && [s1, s2] + [s3] == Elsewhere(w, host, port);
  }

  lemma RunElsewhere(w: World, host: string, port: int, maxAttempts: int)
    requires TasksAreOld(w)
    ensures var v := Run(w, Elsewhere(w, host, port), maxAttempts);
            && v.app == Install(FRESH, w.next).(host := Some(host), port := Some(port), status := Connected)
            && v.tasks == w.tasks && v.installed == w.installed + [(host, port)] && v.attempts == w.attempts
  {
    RunElsewhereSteps(w, host, port, maxAttempts);
    var w1 := Next(w, DisconnectCall, maxAttempts);
    var w2 := Next(w1, ConnectCall(host, port), maxAttempts);
    assert w2.tasks - {w.next} == w.tasks;
  }

  /** How the stale loop goes on: from its delay it needs one more step than from its attempt. */
  function LoopSteps(w: World, loop: nat): seq<Step>
    requires loop in w.tasks
  {
    if w.tasks[loop].DelayTask? then [Resume(loop, true), Resume(loop, true)] else [Resume(loop, true)]
  }

  /**
   Why later connects are excluded: a loop suspended in its delay or in its connection attempt survives
   disconnect() and a connect() to another peer, and then installs a transport to the old one.
   */
  lemma StaleLoopHijacks(w: World, loop: nat, host: string, port: int, maxAttempts: int)
    requires TasksAreOld(w) && loop in w.tasks && (w.tasks[loop].DelayTask? || w.tasks[loop].AttemptTask?)
    ensures var oldPeer := (w.tasks[loop].host, w.tasks[loop].port);
            var v := Run(w, Elsewhere(w, host, port) + LoopSteps(w, loop), maxAttempts);
            && v.app.status == Connected && v.app.host == Some(host) && v.app.port == Some(port)
            && v.installed == w.installed + [(host, port), oldPeer]
  {
    hide Run;
    var steps := Elsewhere(w, host, port);
    RunElsewhere(w, host, port, maxAttempts);
    RunSnoc(w, steps, Resume(loop, true), maxAttempts);
    if w.tasks[loop].DelayTask? {
      RunSnoc(w, steps + [Resume(loop, true)], Resume(loop, true), maxAttempts);
      assert steps + [Resume(loop, true)] + [Resume(loop, true)] == steps + LoopSteps(w, loop);
    }
    assert w.installed + [(host, port)] + [(w.tasks[loop].host, w.tasks[loop].port)]
        == w.installed + [(host, port), (w.tasks[loop].host, w.tasks[loop].port)];
  }

  /** After `disconnect()` some continuation leads to a step in which task `id` installs a transport. */
  ghost predicate CanStillInstall(w: World, id: nat, maxAttempts: int) {
    exists steps: seq<Step> ::
      var v := Run(Next(w, DisconnectCall, maxAttempts), steps, maxAttempts);
      id in v.tasks && Next(v, Resume(id, true), maxAttempts).installed != v.installed
  }

  lemma StepKeepsDiscard(w: World, s: Step, id: nat, maxAttempts: int)
    requires id < w.next && (id in w.tasks ==> w.tasks[id].DiscardTask?)
    ensures var v := Next(w, s, maxAttempts);
            id < v.next && (id in v.tasks ==> v.tasks[id].DiscardTask?)
  {}

  /** A discarded attempt only ends: no step gives its task number to anything else. */
  lemma {:induction false} DiscardStays(w: World, steps: seq<Step>, id: nat, maxAttempts: int)
    requires id < w.next && (id in w.tasks ==> w.tasks[id].DiscardTask?)
    ensures var v := Run(w, steps, maxAttempts);
            id < v.next && (id in v.tasks ==> v.tasks[id].DiscardTask?)
    decreases |steps|
  {
    if steps != [] {
      var front := steps[..|steps| - 1];
      hide Next;
      DiscardStays(w, front, id, maxAttempts);
      StepKeepsDiscard(Run(w, front, maxAttempts), steps[|steps| - 1], id, maxAttempts);
    }
  }

  lemma {:induction false} RunFromDisconnect(w: World, steps: seq<Step>, maxAttempts: int)
    ensures Run(w, [DisconnectCall] + steps, maxAttempts)
            == Run(Next(w, DisconnectCall, maxAttempts), steps, maxAttempts)
    decreases |steps|
  {
    var all := [DisconnectCall] + steps;
    if steps == [] {
      assert all[..0] == [];
    } else {
      RunFromDisconnect(w, steps[..|steps| - 1], maxAttempts);
      assert all[..|all| - 1] == [DisconnectCall] + steps[..|steps| - 1];
    }
  }

  lemma LoopCanInstall(w: World, id: nat, maxAttempts: int)
    requires TasksAreOld(w) && id in w.tasks && (w.tasks[id].DelayTask? || w.tasks[id].AttemptTask?)
    ensures CanStillInstall(w, id, maxAttempts)
  {
    hide Run;
    var d, steps := Next(w, DisconnectCall, maxAttempts), [ConnectCall("", 0), Resume(w.next, true)];
    RunElsewhere(w, "", 0, maxAttempts);
    assert [DisconnectCall] + steps == Elsewhere(w, "", 0);
    RunFromDisconnect(w, steps, maxAttempts);
    if w.tasks[id].DelayTask? {
      RunSnoc(d, steps, Resume(id, true), maxAttempts);
      steps := steps + [Resume(id, true)];
    }
    var v := Run(d, steps, maxAttempts);
    assert v.tasks[id].AttemptTask? && v.app.host.Some?;
    InstallsOnce(v, id, maxAttempts);
  }

  lemma InstallsOnce(v: World, id: nat, maxAttempts: int)
    requires id in v.tasks && (v.tasks[id].ConnectTask? || (v.tasks[id].AttemptTask? && v.app.host.Some?))
    ensures |Next(v, Resume(id, true), maxAttempts).installed| == |v.installed| + 1
  {}

  /**
   Which tasks outlive a disconnect() once later connects are allowed: a suspended task can still install
   a transport exactly when it is a connect, a loop in its delay, or a loop in its connection attempt.
   */
  lemma SurvivesDisconnectIff(w: World, id: nat, maxAttempts: int)
    requires TasksAreOld(w) && id in w.tasks
    ensures CanStillInstall(w, id, maxAttempts)
            <==> w.tasks[id].ConnectTask? || w.tasks[id].DelayTask? || w.tasks[id].AttemptTask?
  {
    var d := Next(w, DisconnectCall, maxAttempts);
    if w.tasks[id].ConnectTask? {
      InstallsOnce(d, id, maxAttempts);
      assert Run(d, [], maxAttempts) == d;
    } else if w.tasks[id].DiscardTask? {
      forall steps: seq<Step>
        ensures var v := Run(d, steps, maxAttempts);
                id in v.tasks ==> Next(v, Resume(id, true), maxAttempts).installed == v.installed
      {
        DiscardStays(d, steps, id, maxAttempts);
      }
    } else {
      LoopCanInstall(w, id, maxAttempts);
    }
  }

  /** Such loops occur: connect, then lose the connection. */
  lemma LoopIsReachable(host: string, port: int, maxAttempts: int)
    requires maxAttempts > 0
    ensures var w := Run(START, [ConnectCall(host, port), Resume(0, true), Drop], maxAttempts);
            TasksAreOld(w) && 1 in w.tasks && w.tasks[1] == DelayTask(host, port, 0)
  {
    hide Run;
    var s1, s2 := ConnectCall(host, port), Resume(0, true);
    RunNothing(START, maxAttempts);
    RunSnoc(START, [], s1, maxAttempts);
    RunSnoc(START, [s1], s2, maxAttempts);
    RunSnoc(START, [s1, s2], Drop, maxAttempts);
    assert [] + [s1] == [s1] && [s1] + [s2] == [s1, s2] && [s1, s2] + [Drop] == [s1, s2, Drop];
  }

  /** The steps up to a discarded attempt: connect, drop, first attempt, disconnect, and the attempt succeeds. */
  function DiscardSteps(host: string, port: int): seq<Step> {
    [ConnectCall(host, port), Resume(0, true), Drop, Resume(1, true), DisconnectCall, Resume(1, true)]
  }

  lemma DiscardIsReachable(host: string, port: int, maxAttempts: int)
    requires maxAttempts > 0
    ensures var w := Run(START, DiscardSteps(host, port), maxAttempts);
            && w.app == FRESH && w.next == 3
            && w.tasks == map[1 := DiscardTask]
  {
    hide Run;
    var s3 := [ConnectCall(host, port), Resume(0, true), Drop];
    LoopIsReachable(host, port, maxAttempts);
    OneLoop(host, port, maxAttempts);
    RunSnoc(START, s3, Resume(1, true), maxAttempts);
    RunSnoc(START, s3 + [Resume(1, true)], DisconnectCall, maxAttempts);
    RunSnoc(START, s3 + [Resume(1, true)] + [DisconnectCall], Resume(1, true), maxAttempts);
    assert s3 + [Resume(1, true)] + [DisconnectCall] + [Resume(1, true)] == DiscardSteps(host, port);
  }

  lemma OneLoop(host: string, port: int, maxAttempts: int)
    requires maxAttempts > 0
    ensures var w := Run(START, [ConnectCall(host, port), Resume(0, true), Drop], maxAttempts);
            && w.tasks == map[1 := DelayTask(host, port, 0)] && w.next == 2
            && w.app.host.Some? && w.app.reconnecting
  {
    hide Run;
    var s1, s2 := ConnectCall(host, port), Resume(0, true);
    RunNothing(START, maxAttempts);
    RunSnoc(START, [], s1, maxAttempts);
    RunSnoc(START, [s1], s2, maxAttempts);
    RunSnoc(START, [s1, s2], Drop, maxAttempts);
    assert [] + [s1] == [s1] && [s1] + [s2] == [s1, s2] && [s1, s2] + [Drop] == [s1, s2, Drop];
    assert map[0 := ConnectTask(host, port, 0)] - {0} == map[];
  }

  /**
   A reachable run in which the end of a discarded attempt clears the mark of a later loop, so that one more
   drop starts a second loop beside it.
   */
  lemma TwoLoopsAtOnce(host: string, port: int, maxAttempts: int)
    requires maxAttempts > 0
    ensures var more := [ConnectCall(host, port), Resume(3, true), Drop, Resume(1, true)];
            var v := Run(START, DiscardSteps(host, port) + more, maxAttempts);
            var w := Next(v, Drop, maxAttempts);
            && v.app.status == Reconnecting && !v.app.reconnecting && v.tasks == map[4 := DelayTask(host, port, 0)]
            && 4 in w.tasks && w.tasks[4].DelayTask? && 5 in w.tasks && w.tasks[5].DelayTask?
  {
    hide Run;
    var steps := DiscardSteps(host, port);
    var s1, s2, s4 := ConnectCall(host, port), Resume(3, true), Resume(1, true);
    DiscardIsReachable(host, port, maxAttempts);
    RunSnoc(START, steps, s1, maxAttempts);
    RunSnoc(START, steps + [s1], s2, maxAttempts);
    RunSnoc(START, steps + [s1] + [s2], Drop, maxAttempts);
    RunSnoc(START, steps + [s1] + [s2] + [Drop], s4, maxAttempts);
    assert steps + [s1] + [s2] + [Drop] + [s4] == steps + [s1, s2, Drop, s4];
    assert map[1 := DiscardTask, 3 := ConnectTask(host, port, 3)] - {3} == map[1 := DiscardTask];
    assert map[1 := DiscardTask, 4 := DelayTask(host, port, 0)] - {1} == map[4 := DelayTask(host, port, 0)];
  }

  lemma RunNothing(w: World, maxAttempts: int)
    ensures Run(w, [], maxAttempts) == w
  {}

  /** In every run the task numbers in use are old, as the two results above require. */
  lemma TasksStayOld(steps: seq<Step>, maxAttempts: int)
    ensures TasksAreOld(Run(START, steps, maxAttempts))
  {
    EveryRunKeepsInv(steps, maxAttempts);
  }

  // ---------------------------------------------------------------- a drop, without user calls

  /** One reconnect loop driven by the outcomes of its attempts: delay, attempt, delay, attempt... */
  function Drive(w: World, loop: nat, outcomes: seq<bool>, maxAttempts: int): World
    decreases |outcomes|
  {
    if outcomes == [] || loop !in w.tasks then w
    else
      Drive(Next(Next(w, Resume(loop, true), maxAttempts), Resume(loop, outcomes[0]), maxAttempts),
            loop, outcomes[1..], maxAttempts)
  }

  /** The loop is about to make attempt `attempt`, and nothing else is going on. */
  predicate Trying(w: World, loop: nat, attempt: nat, maxAttempts: int) {
    && w.tasks.Keys == {loop} && w.tasks[loop].DelayTask? && w.tasks[loop].attempt == attempt < maxAttempts
    && w.app.host.Some? && w.app.port.Some? && w.app.reconnecting && w.app.status == Reconnecting
    && loop in w.attempts && w.attempts[loop] == attempt
  }

  /** The 0-based position of the first success. */
  function FirstSuccess(outcomes: seq<bool>): (n: nat)
    ensures n <= |outcomes|
    ensures n < |outcomes| ==> outcomes[n]
    ensures forall i :: 0 <= i < n ==> !outcomes[i]
  {
    if outcomes == [] || outcomes[0] then 0 else 1 + FirstSuccess(outcomes[1..])
  }

  /** How the fields are left: a new connection to the same peer, or no connection and no peer to reconnect to. */
  predicate Settled(after: Fields, before: Fields, success: bool) {
    && after.reconnectAttempt == 0
    && (success ==>
          && after.host == before.host && after.port == before.port
          && after.transport.Some? && after.service == after.dropSub == after.transport)
    && (!success ==>
          && after.host.None? && after.port.None?
          && after.transport == before.transport && after.service == before.service)
  }

  lemma {:induction false} LoopOutcome(w: World, loop: nat, attempt: nat, outcomes: seq<bool>, maxAttempts: int)
    requires Trying(w, loop, attempt, maxAttempts) && |outcomes| == maxAttempts - attempt
    ensures var v, k := Drive(w, loop, outcomes, maxAttempts), FirstSuccess(outcomes);
            && v.tasks == map[] && !v.app.reconnecting && loop in v.attempts
            && (if k < |outcomes| then v.app.status == Connected && v.attempts[loop] == attempt + k + 1
                else v.app.status == Failed && v.attempts[loop] == maxAttempts)
            && Settled(v.app, w.app, k < |outcomes|)
            && v.installed == w.installed + if k < |outcomes| then [(w.tasks[loop].host, w.tasks[loop].port)] else []
    decreases |outcomes|
  {
    var w1 := Next(w, Resume(loop, true), maxAttempts);
    var w2 := Next(w1, Resume(loop, outcomes[0]), maxAttempts);
    assert w1.tasks.Keys == {loop};
    if outcomes[0] || attempt + 1 == maxAttempts {
      assert w2.tasks == map[];
      assert Drive(w2, loop, outcomes[1..], maxAttempts) == w2;
    } else {
      assert w2.tasks.Keys == {loop};
      LoopOutcome(w2, loop, attempt + 1, outcomes[1..], maxAttempts);
    }
  }

  /**
   Without user calls, a drop of an idle connection makes one attempt after another until the first
   success, at most `maxAttempts` of them, and ends connected, or in error when all failed.
   */
  lemma DropEndsConnectedOrFailed(w: World, outcomes: seq<bool>, maxAttempts: int)
    requires w.tasks == map[] && !w.app.reconnecting && w.app.host.Some? && w.app.port.Some?
    requires |outcomes| == if maxAttempts < 0 then 0 else maxAttempts
    ensures var d, k := Next(w, Drop, maxAttempts), FirstSuccess(outcomes);
            var v := Drive(d, w.next, outcomes, maxAttempts);
            && v.tasks == map[]
            && v.app.status == (if k < |outcomes| then Connected else Failed)
            && (maxAttempts > 0 ==>
                  && w.next in v.attempts
                  && v.attempts[w.next] == if k < |outcomes| then k + 1 else maxAttempts)
            && v.installed == w.installed + (if k < |outcomes| then [(w.app.host.value, w.app.port.value)] else [])
            && (maxAttempts > 0 ==> Settled(v.app, w.app.(transport := None, service := None), k < |outcomes|))
            && (maxAttempts <= 0 ==> NoConnection(v.app) && v.app.host == w.app.host && v.app.port == w.app.port)
  {
    var d := Next(w, Drop, maxAttempts);
    if maxAttempts > 0 {
      assert d.tasks.Keys == {w.next};
      LoopOutcome(d, w.next, 0, outcomes, maxAttempts);
    }
  }

  /** While a loop runs, further drops change nothing. */
  lemma DropsDuringReconnectAreIgnored(w: World, maxAttempts: int)
    requires w.app.reconnecting
    ensures Next(w, Drop, maxAttempts) == w
  {}

  /** Either nothing is suspended, or one reconnect loop is and the status says so. */
  predicate Unattended(w: World) {
    && (w.app.host.Some? <==> w.app.port.Some?)
    && ((w.tasks == map[] && !w.app.reconnecting && (w.app.status == Connected || w.app.status == Failed))
        || (w.app.reconnecting && w.app.status == Reconnecting && w.app.host.Some?
            && exists loop :: loop in w.tasks && w.tasks.Keys == {loop}
                              && (w.tasks[loop].DelayTask? || w.tasks[loop].AttemptTask?)))
  }

  predicate IsUserCall(s: Step) {
    s.ConnectCall? || s.DisconnectCall?
  }

  lemma StepStaysUnattended(w: World, s: Step, maxAttempts: int)
    requires Unattended(w) && !IsUserCall(s)
    ensures Unattended(Next(w, s, maxAttempts))
  {
    var v := Next(w, s, maxAttempts);
    if w.app.reconnecting {
      var loop :| loop in w.tasks && w.tasks.Keys == {loop};
      if s.Drop? {
        DropsDuringReconnectAreIgnored(w, maxAttempts);
      } else if s.Resume? && s.task in w.tasks {
        assert s.task == loop;
        assert (w.tasks - {loop}).Keys == {};
        assert loop in v.tasks ==> v.tasks.Keys == {loop};
      }
    } else if s.Drop? && HandleDrop(w.app, maxAttempts).1.Some? {
      assert w.next in v.tasks && v.tasks.Keys == {w.next};
    }
  }

  /**
   Without user calls, however drops and the loop interleave: at most one reconnect loop is suspended,
   `reconnecting` is shown exactly while it is, and otherwise the app is connected or in error.
   */
  lemma {:induction false} UnattendedRuns(w: World, steps: seq<Step>, maxAttempts: int)
    requires Unattended(w) && forall i :: 0 <= i < |steps| ==> !IsUserCall(steps[i])
    ensures var v := Run(w, steps, maxAttempts);
            && Unattended(v)
            && (v.tasks == map[] ==> v.app.status == Connected || v.app.status == Failed)
            && (v.tasks != map[] ==> v.app.status == Reconnecting && |v.tasks| == 1)
    decreases |steps|
  {
    if steps != [] {
      var front := steps[..|steps| - 1];
      UnattendedRuns(w, front, maxAttempts);
      StepStaysUnattended(Run(w, front, maxAttempts), steps[|steps| - 1], maxAttempts);
    }
    var v := Run(w, steps, maxAttempts);
    if v.tasks != map[] {
      var loop :| loop in v.tasks && v.tasks.Keys == {loop};
      assert |v.tasks| == |v.tasks.Keys|;
    }
  }

  /** The attempt shown is the one under way, counted from 1; between attempts it is the last one made. */
  predicate Counted(w: World) {
    && (w.tasks == map[] ==> w.app.reconnectAttempt == 0)
    && (forall id :: id in w.tasks && w.tasks[id].DelayTask? ==> w.app.reconnectAttempt == w.tasks[id].attempt)
    && (forall id :: id in w.tasks && w.tasks[id].AttemptTask? ==> w.app.reconnectAttempt == w.tasks[id].attempt + 1)
  }

  lemma StepStaysCounted(w: World, s: Step, maxAttempts: int)
    requires Unattended(w) && Counted(w) && !IsUserCall(s)
    ensures Counted(Next(w, s, maxAttempts))
  {
    var v := Next(w, s, maxAttempts);
    if w.app.reconnecting {
      var loop :| loop in w.tasks && w.tasks.Keys == {loop};
      if s.Resume? && s.task in w.tasks {
        assert s.task == loop;
        assert (w.tasks - {loop}) == map[];
        assert v.tasks.Keys == {loop} || v.tasks == map[];
      } else {
        assert v == w;
      }
    } else if s.Drop? && HandleDrop(w.app, maxAttempts).1.Some? {
      assert v.tasks.Keys == {w.next};
    }
  }

  /** Without user calls the number of the attempt is always shown right. */
  lemma {:induction false} AttemptIsShown(w: World, steps: seq<Step>, maxAttempts: int)
    requires Unattended(w) && Counted(w) && forall i :: 0 <= i < |steps| ==> !IsUserCall(steps[i])
    ensures Counted(Run(w, steps, maxAttempts))
    decreases |steps|
  {
    if steps != [] {
      hide Next, Counted, Unattended;
      var front := steps[..|steps| - 1];
      AttemptIsShown(w, front, maxAttempts);
      UnattendedRuns(w, front, maxAttempts);
      StepStaysCounted(Run(w, front, maxAttempts), steps[|steps| - 1], maxAttempts);
    }
  }
}
