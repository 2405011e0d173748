/**
 Runs of the CAPL core against an arbitrary ECU: the watchdog is armed exactly while a command awaits
 its terminal answer, every command is answered at most once and with its own id and kind, and the
 security continuation never shows a seed nor reports a wrong level.
 */
module CaplRuns {
  import opened Base
  import opened Wire
  import opened Bridge
  import opened Capl

  /** `key` is what the seed-key DLL gives, should the core ask it now; it may differ every time. */
  datatype Step = Trigger(cmd: Cmd) | Answer(frame: Bytes, key: Option<Bytes>) | Watchdog

  function Gives(key: Option<Bytes>): KeyGen {
    (seed: Bytes, level: Byte) => key
  }

  /** The core with the commands it was triggered with and everything it published. */
  datatype World = World(core: Core, cmds: seq<Cmd>, pubs: seq<Evt>)

  const START := World(Core(0, 0, false, 0, 0, false), [], [])

  function Absorb(w: World, r: (Core, seq<Output>)): World {
    World(r.0, w.cmds, w.pubs + Publishes(r.1))
  }

  function Next(w: World, s: Step): World
  {
    match s
    case Trigger(c) =>
      var data := if c.data.Some? then c.data.value else [];
      Absorb(w.(cmds := w.cmds + [c]), OnReqTrigger(w.core, c.id, c.kind, c.arg, data))
    case Answer(frame, key) => Absorb(w, OnDiagResponse(w.core, frame, Gives(key)))
    case Watchdog => Absorb(w, OnTimeout(w.core))
  }

  /** `id` has its terminal publish. */
  predicate Answered(pubs: seq<Evt>, id: int) {
    exists j :: 0 <= j < |pubs| && pubs[j].id == id && !IsPending(pubs[j])
  }

  /** Some non-TP command still awaits its terminal publish. */
  predicate Awaiting(w: World) {
    exists i :: 0 <= i < |w.cmds| && !IsTp(w.cmds[i].kind) && !Answered(w.pubs, w.cmds[i].id)
  }

  /**
   What the environment promises: ids strictly increase, one non-TP command at a time, and ECU frames
   (any bytes) and the watchdog only while the timer is armed.
   */
  predicate Legal(w: World, s: Step) {
    match s
    case Trigger(c) =>
      && WellFormedCmd(c)
      && (forall i :: 0 <= i < |w.cmds| ==> w.cmds[i].id < c.id)
      && (IsTp(c.kind) || !Awaiting(w))
    case Answer(_, _) => w.core.armed
    case Watchdog => w.core.armed
  }

  predicate LegalRun(steps: seq<Step>) {
    steps == [] ||
    var front := steps[..|steps| - 1];
    LegalRun(front) && Legal(Run(front), steps[|steps| - 1])
  }

  function Run(steps: seq<Step>): World
  {
    if steps == [] then START
    else Next(Run(steps[..|steps| - 1]), steps[|steps| - 1])
  }

  // ---------------------------------------------------------------- what every run keeps

  /** The last command that reached the core. */
  function LastReal(cmds: seq<Cmd>): (c: Option<Cmd>)
    ensures c.Some? ==> c.value in cmds && !IsTp(c.value.kind)
    ensures c.None? ==> forall i :: 0 <= i < |cmds| ==> IsTp(cmds[i].kind)
  {
    if cmds == [] then None
    else if !IsTp(cmds[|cmds| - 1].kind) then Some(cmds[|cmds| - 1])
    else LastReal(cmds[..|cmds| - 1])
  }

  /** No seed of the requested level, and an OK only for exactly that level. */
  predicate SecurityClean(p: Evt, c: Cmd) {
    c.kind == KIND_SECURITY ==>
      && !(|p.data| >= 2 && p.data[0] == 0x67 && p.data[1] == c.arg)
      && (p.status == STATUS_OK ==> ResponseOf(p) == Ok(OkSecLine(c.id, c.arg)))
  }

  predicate PublishedFor(p: Evt, c: Cmd) {
    p.id == c.id && p.kind == c.kind && SecurityClean(p, c)
  }

  predicate Owned(cmds: seq<Cmd>, pubs: seq<Evt>) {
    forall j :: 0 <= j < |pubs| ==> HasOwner(cmds, pubs[j])
  }

  predicate HasOwner(cmds: seq<Cmd>, p: Evt) {
    exists i :: 0 <= i < |cmds| && PublishedFor(p, cmds[i])
  }

  /** A terminal publish is the last one with its id. */
  predicate TerminalIsLast(pubs: seq<Evt>) {
    forall i, j :: 0 <= i < j < |pubs| && pubs[i].id == pubs[j].id ==> IsPending(pubs[i])
  }

  predicate Increasing(cmds: seq<Cmd>) {
    forall i, j :: 0 <= i < j < |cmds| ==> cmds[i].id < cmds[j].id
  }

  predicate CoreTracks(w: World) {
    match LastReal(w.cmds)
    case None => w.core == START.core
    case Some(c) =>
      && w.core.reqSeq == c.id && w.core.reqKind == c.kind
      && (w.core.armed <==> !Answered(w.pubs, c.id))
      && (w.core.armed && c.kind == KIND_SECURITY ==>
            w.core.secActive && w.core.secSeq == c.id && w.core.secLevel == c.arg)
  }

  predicate OthersAnswered(w: World) {
    forall i :: 0 <= i < |w.cmds| && !IsTp(w.cmds[i].kind) ==>
                  w.cmds[i].id == w.core.reqSeq || Answered(w.pubs, w.cmds[i].id)
  }

  predicate Inv(w: World) {
    && (forall i :: 0 <= i < |w.cmds| ==> WellFormedCmd(w.cmds[i]))
    && Increasing(w.cmds)
    && Owned(w.cmds, w.pubs)
    && TerminalIsLast(w.pubs)
    && CoreTracks(w)
    && OthersAnswered(w)
  }

  lemma AnsweredSnoc(pubs: seq<Evt>, p: Evt, id: int)
    ensures Answered(pubs + [p], id) <==> Answered(pubs, id) || (p.id == id && !IsPending(p))
  {
    var more := pubs + [p];
    if Answered(pubs, id) {
      var j :| 0 <= j < |pubs| && pubs[j].id == id && !IsPending(pubs[j]);
      assert more[j] == pubs[j];
    }
    if p.id == id && !IsPending(p) {
      assert more[|pubs|] == p;
    }
  }

  lemma OwnedMonotone(cmds: seq<Cmd>, c: Cmd, pubs: seq<Evt>)
    requires Owned(cmds, pubs)
    ensures Owned(cmds + [c], pubs)
  {
    forall j | 0 <= j < |pubs|
      ensures HasOwner(cmds + [c], pubs[j])
    {
      assert HasOwner(cmds, pubs[j]);
      var i :| 0 <= i < |cmds| && PublishedFor(pubs[j], cmds[i]);
      assert (cmds + [c])[i] == cmds[i];
    }
  }

  lemma OwnedSnoc(cmds: seq<Cmd>, pubs: seq<Evt>, p: Evt, c: Cmd)
    requires Owned(cmds, pubs) && c in cmds && PublishedFor(p, c)
    ensures Owned(cmds, pubs + [p])
  {
    var k :| 0 <= k < |cmds| && cmds[k] == c;
    assert PublishedFor(p, cmds[k]);
  }

  /** A fresh id has no publish yet. */
  lemma FreshIsUnanswered(w: World, id: int)
    requires Inv(w) && forall i :: 0 <= i < |w.cmds| ==> w.cmds[i].id < id
    ensures forall j :: 0 <= j < |w.pubs| ==> w.pubs[j].id != id
    ensures !Answered(w.pubs, id)
  {}

  lemma TriggerReal(w: World, c: Cmd, core: Core)
    requires Inv(w) && Legal(w, Trigger(c)) && !IsTp(c.kind)
    requires core.armed && core.reqSeq == c.id && core.reqKind == c.kind
    requires c.kind == KIND_SECURITY ==> core.secActive && core.secSeq == c.id && core.secLevel == c.arg
    ensures Inv(World(core, w.cmds + [c], w.pubs))
  {
    FreshIsUnanswered(w, c.id);
    OwnedMonotone(w.cmds, c, w.pubs);
    var v := World(core, w.cmds + [c], w.pubs);
    assert LastReal(v.cmds) == Some(c);
    forall i | 0 <= i < |v.cmds| && !IsTp(v.cmds[i].kind)
      ensures v.cmds[i].id == c.id || Answered(v.pubs, v.cmds[i].id)
    {
      assert i < |w.cmds| ==> v.cmds[i] == w.cmds[i];
    }
  }

  lemma TriggerTp(w: World, c: Cmd)
    requires Inv(w) && Legal(w, Trigger(c)) && IsTp(c.kind)
    ensures Inv(World(w.core, w.cmds + [c], w.pubs + [Evt(c.id, STATUS_OK, c.kind, [])]))
  {
    hide Answered, HasOwner, PublishedFor, SecurityClean;
    var p := Evt(c.id, STATUS_OK, c.kind, []);
    var v := World(w.core, w.cmds + [c], w.pubs + [p]);
    FreshIsUnanswered(w, c.id);
    OwnedMonotone(w.cmds, c, w.pubs);
    OwnedSnoc(v.cmds, w.pubs, p, c);
    assert v.cmds[..|w.cmds|] == w.cmds;
    assert LastReal(v.cmds) == LastReal(w.cmds);
    forall i | 0 <= i < |w.cmds|
      ensures Answered(v.pubs, w.cmds[i].id) == Answered(w.pubs, w.cmds[i].id)
    {
      AnsweredSnoc(w.pubs, p, w.cmds[i].id);
    }
  }

  /** The current command publishes: pending keeps the timer armed, terminal disarms it. */
  lemma PublishCurrent(w: World, core: Core, p: Evt)
    requires Inv(w) && w.core.armed
    requires LastReal(w.cmds).Some? && PublishedFor(p, LastReal(w.cmds).value)
    requires core.reqSeq == w.core.reqSeq && core.reqKind == w.core.reqKind
    requires core.armed <==> IsPending(p)
    requires core.armed ==> core == w.core
    ensures Inv(World(core, w.cmds, w.pubs + [p]))
  {
    var c := LastReal(w.cmds).value;
    OwnedSnoc(w.cmds, w.pubs, p, c);
    AnsweredSnoc(w.pubs, p, c.id);
    forall i | 0 <= i < |w.cmds|
      ensures Answered(w.pubs, w.cmds[i].id) ==> Answered(w.pubs + [p], w.cmds[i].id)
    {
      AnsweredSnoc(w.pubs, p, w.cmds[i].id);
    }
  }

  lemma TriggerKeepsInv(w: World, c: Cmd)
    requires Inv(w) && Legal(w, Trigger(c))
    ensures Inv(Next(w, Trigger(c)))
  {
    hide Inv, Awaiting, Answered;
    OneOutput();
    var data := if c.data.Some? then c.data.value else [];
    var (core, outs) := OnReqTrigger(w.core, c.id, c.kind, c.arg, data);
    if IsTp(c.kind) {
      TriggerTp(w, c);
    } else {
      TriggerReal(w, c, core);
      assert w.pubs + [] == w.pubs;
    }
  }

  /** What the core does with a frame: one publish for the current command, or the key request. */
  lemma AnswerEffect(w: World, frame: Bytes, key: Option<Bytes>)
    requires Inv(w) && w.core.armed
    ensures LastReal(w.cmds).Some?
    ensures var (core, outs) := OnDiagResponse(w.core, frame, Gives(key));
            && core.reqSeq == w.core.reqSeq && core.reqKind == w.core.reqKind
            && |outs| == 1
            && (outs[0].Transmit? ==> core == w.core)
            && (outs[0].Publish? ==>
                  && PublishedFor(outs[0].evt, LastReal(w.cmds).value)
                  && (core.armed <==> IsPending(outs[0].evt))
                  && (core.armed ==> core == w.core))
  {}

  lemma AnswerKeepsInv(w: World, frame: Bytes, key: Option<Bytes>)
    requires Inv(w) && w.core.armed
    ensures Inv(Next(w, Answer(frame, key)))
  {
    AnswerEffect(w, frame, key);
    OneOutput();
    var (core, outs) := OnDiagResponse(w.core, frame, Gives(key));
    assert outs == [outs[0]];
    if outs[0].Publish? {
      PublishCurrent(w, core, outs[0].evt);
    } else {
      assert w.pubs + [] == w.pubs;
    }
  }

  lemma WatchdogKeepsInv(w: World)
    requires Inv(w) && w.core.armed
    ensures Inv(Next(w, Watchdog))
  {
    OneOutput();
    var (core, outs) := OnTimeout(w.core);
    PublishCurrent(w, core, outs[0].evt);
  }

  lemma StepKeepsInv(w: World, s: Step)
    requires Inv(w) && Legal(w, s)
    ensures Inv(Next(w, s))
  {
    hide Inv;
    match s
    case Trigger(c) => TriggerKeepsInv(w, c);
    case Answer(frame, key) => AnswerKeepsInv(w, frame, key);
    case Watchdog => WatchdogKeepsInv(w);
  }

  lemma {:induction false} EveryRunKeepsInv(steps: seq<Step>)
    requires LegalRun(steps)
    ensures Inv(Run(steps))
    decreases |steps|
  {
    if steps != [] {
      var front, last := steps[..|steps| - 1], steps[|steps| - 1];
      EveryRunKeepsInv(front);
      StepKeepsInv(Run(front), last);
    }
  }

  // ---------------------------------------------------------------- main results

  /** In every run the watchdog is armed exactly while a non-TP command awaits its terminal publish. */
  lemma ArmedIffAwaiting(steps: seq<Step>)
    requires LegalRun(steps)
    ensures Run(steps).core.armed <==> Awaiting(Run(steps))
  {
    EveryRunKeepsInv(steps);
    var w := Run(steps);
    if w.core.armed {
      var c := LastReal(w.cmds).value;
      var i :| 0 <= i < |w.cmds| && w.cmds[i] == c;
      assert !Answered(w.pubs, w.cmds[i].id);
    }
  }

  /**
   In every run each publish belongs to exactly one command, with its kind; the publishes of a command
   are response-pending ones followed by at most one terminal.
   */
  lemma PublishDiscipline(steps: seq<Step>)
    requires LegalRun(steps)
    ensures var w := Run(steps);
            && (forall j :: 0 <= j < |w.pubs| ==>
                              exists i :: 0 <= i < |w.cmds| && w.pubs[j].id == w.cmds[i].id)
            && (forall i, j :: 0 <= i < |w.cmds| && 0 <= j < |w.pubs| && w.pubs[j].id == w.cmds[i].id ==>
                                 w.pubs[j].kind == w.cmds[i].kind)
            && (forall i, j :: 0 <= i < j < |w.pubs| && w.pubs[i].id == w.pubs[j].id ==> IsPending(w.pubs[i]))
  {
    EveryRunKeepsInv(steps);
    var w := Run(steps);
    forall j | 0 <= j < |w.pubs|
      ensures exists i :: 0 <= i < |w.cmds| && w.pubs[j].id == w.cmds[i].id
    {
      assert HasOwner(w.cmds, w.pubs[j]);
      var i :| 0 <= i < |w.cmds| && PublishedFor(w.pubs[j], w.cmds[i]);
    }
    forall i, j | 0 <= i < |w.cmds| && 0 <= j < |w.pubs| && w.pubs[j].id == w.cmds[i].id
      ensures w.pubs[j].kind == w.cmds[i].kind
    {
      PublishOwner(w, i, j);
    }
  }

  lemma PublishOwner(w: World, i: nat, j: nat)
    requires Inv(w) && i < |w.cmds| && j < |w.pubs| && w.pubs[j].id == w.cmds[i].id
    ensures PublishedFor(w.pubs[j], w.cmds[i])
  {
    assert HasOwner(w.cmds, w.pubs[j]);
    var k :| 0 <= k < |w.cmds| && PublishedFor(w.pubs[j], w.cmds[k]);
    assert k == i;
  }

  /**
   In every run no publish of a SECURITY command shows a seed of the level it asked for, and every OK
   is rendered as that level, whatever the ECU sends (byte wrap included).
   */
  lemma SecurityContinuation(steps: seq<Step>)
    requires LegalRun(steps)
    ensures var w := Run(steps);
            forall i, j :: 0 <= i < |w.cmds| && 0 <= j < |w.pubs| && w.pubs[j].id == w.cmds[i].id
                           && w.cmds[i].kind == KIND_SECURITY ==>
                             var p := w.pubs[j];
                             && !(|p.data| >= 2 && p.data[0] == 0x67 && p.data[1] == w.cmds[i].arg)
                             && (p.status == STATUS_OK ==>
                                   EncodeResponse(p) == Encode(OkSecLine(w.cmds[i].id, w.cmds[i].arg)))
  {
    EveryRunKeepsInv(steps);
    var w := Run(steps);
    forall i, j | 0 <= i < |w.cmds| && 0 <= j < |w.pubs| && w.pubs[j].id == w.cmds[i].id
                  && w.cmds[i].kind == KIND_SECURITY
      ensures SecurityClean(w.pubs[j], w.cmds[i])
    {
      PublishOwner(w, i, j);
    }
  }

  // ---------------------------------------------------------------- what a status tells

  /** A `67` frame with the given level while the core waits for the seed or the unlocking of its command. */
  predicate IsSecurityFrame(c: Core, frame: Bytes, level: Byte) {
    && c.secActive && c.reqSeq == c.secSeq && c.reqKind == KIND_SECURITY
    && |frame| >= 2 && frame[0] == 0x67 && frame[1] == level
  }

  predicate IsAwaitedSeed(c: Core, frame: Bytes) {
    IsSecurityFrame(c, frame, c.secLevel)
  }

  predicate IsAwaitedUnlock(c: Core, frame: Bytes) {
    IsSecurityFrame(c, frame, (c.secLevel + 1) % 256)
  }

  /** What the status of a publish says about the step that made it. */
  predicate Tells(c: Core, s: Step, p: Evt) {
    && 0 <= p.status <= 4
    && (p.status == 1 <==> s.Answer? && s.frame != [] && s.frame[0] == 0x7F)
    && (p.status == 2 <==> (s.Trigger? && IsTp(s.cmd.kind)) || (s.Answer? && IsAwaitedUnlock(c, s.frame)))
    && (p.status == 3 <==> s.Answer? && IsAwaitedSeed(c, s.frame) && s.key.None?)
    && (p.status == 4 <==> s.Watchdog?)
    && (s.Answer? && p.status != 3 ==> p.data == if |s.frame| > 4095 then s.frame[..4095] else s.frame)
  }

  predicate PublishesOnly(w: World, s: Step, pubs: seq<Evt>) {
    |pubs| <= 1 && (pubs != [] ==> Tells(w.core, s, pubs[0])) && Next(w, s).pubs == w.pubs + pubs
  }

  lemma TriggerTells(w: World, c: Cmd) returns (pubs: seq<Evt>)
    requires WellFormedCmd(c)
    ensures PublishesOnly(w, Trigger(c), pubs)
  {
    OneOutput();
    pubs := Publishes(OnReqTrigger(w.core, c.id, c.kind, c.arg, if c.data.Some? then c.data.value else []).1);
  }

  lemma AnswerTells(w: World, frame: Bytes, key: Option<Bytes>) returns (pubs: seq<Evt>)
    ensures PublishesOnly(w, Answer(frame, key), pubs)
  {
    OneOutput();
    AnswerPublishes(w.core, frame, key);
    var outs := OnDiagResponse(w.core, frame, Gives(key)).1;
    assert outs == [outs[0]];
    pubs := Publishes(outs);
    if outs[0].Publish? {
      FrameTells(w.core, frame, key);
    }
  }

  lemma FrameTells(c: Core, frame: Bytes, key: Option<Bytes>)
    ensures var outs := OnDiagResponse(c, frame, Gives(key)).1;
            outs != [] && (outs[0].Publish? ==> Tells(c, Answer(frame, key), outs[0].evt))
  {}

  lemma WatchdogTells(w: World) returns (pubs: seq<Evt>)
    ensures PublishesOnly(w, Watchdog, pubs)
  {
    WatchdogPublishes(w);
    pubs := [TimeoutOf(w.core)];
  }

  lemma StepTells(w: World, s: Step) returns (pubs: seq<Evt>)
    requires Legal(w, s)
    ensures PublishesOnly(w, s, pubs)
  {
    hide PublishesOnly;
    match s
    case Trigger(c) => pubs := TriggerTells(w, c);
    case Answer(frame, key) => pubs := AnswerTells(w, frame, key);
    case Watchdog => pubs := WatchdogTells(w);
  }

  function First(b: Bytes, n: nat): Bytes {
    if |b| > n then b[..n] else b
  }

  /** The frames a step hands to the diagnostic layer, and the seed it hands to the DLL. */
  lemma StepTransmits(c: Core, cmd: Cmd, frame: Bytes, keygen: KeyGen)
    requires WellFormedCmd(cmd)
    ensures var data := if cmd.data.Some? then cmd.data.value else [];
            var outs := OnReqTrigger(c, cmd.id, cmd.kind, cmd.arg, data).1;
            && |outs| == 1
            && (IsTp(cmd.kind) <==> outs[0].Publish?)
            && (!IsTp(cmd.kind) ==>
                  outs[0] == Transmit(if cmd.kind == 0 then First(data, 4095)
                                      else if cmd.kind == 1 then [0x19, 0x02, cmd.arg]
                                      else if cmd.kind == 2 then [0x14, 0xFF, 0xFF, 0xFF]
                                      else if cmd.kind == 3 then [0x27, cmd.arg]
                                      else [0x10, cmd.arg]))
    ensures var outs := OnDiagResponse(c, frame, keygen).1;
            var key := if |frame| >= 2 then keygen(First(First(frame, 4095)[2..], 256), c.secLevel) else None;
            && |outs| == 1
            && (outs[0].Transmit? <==> IsAwaitedSeed(c, frame) && key.Some?)
            && (outs[0].Transmit? ==> outs[0] == Transmit([0x27, (c.secLevel + 1) % 256] + First(key.value, 256)))
    ensures |OnTimeout(c).1| == 1 && OnTimeout(c).1[0].Publish?
  {}

  /** What is left of the security state: cleared by every terminal it belongs to, kept while a 78 is pending. */
  lemma SecurityStateAfter(c: Core, frame: Bytes, keygen: KeyGen)
    ensures var own := c.secActive && c.reqSeq == c.secSeq;
            var (after, outs) := OnDiagResponse(c, frame, keygen);
            var negative := frame != [] && frame[0] == 0x7F;
            var pending := negative && |frame| >= 3 && frame[2] == 0x78;
            && (after.armed <==> pending || outs[0].Transmit?)
            && (pending ==> after == c.(armed := true))
            && (negative && !pending ==> after == c.(armed := false, secActive := c.secActive && !own))
            && (!negative && outs[0].Publish? ==>
                  after == c.(armed := false,
                              secActive := c.secActive && (outs[0].evt.status == 0 || !own)))
            && (outs[0].Transmit? ==> after == c.(armed := true))
    ensures OnTimeout(c).0 == c.(armed := false, secActive := c.secActive && c.reqSeq != c.secSeq)
  {}

  /** Step `k` made publish `j`, and its status tells so. */
  predicate MadeBy(steps: seq<Step>, j: nat, k: nat)
    requires k < |steps| && j < |Run(steps).pubs|
  {
    && |Run(steps[..k]).pubs| == j && |Run(steps[..k + 1]).pubs| == j + 1
    && Tells(Run(steps[..k]).core, steps[k], Run(steps).pubs[j])
  }

  /**
   In every run each publish was made by one step, and its status tells which: 1 a negative frame, 2 a TP
   command or the unlock message being waited for, 3 the seed being waited for when key generation fails,
   4 the watchdog, 0 any other frame; and the data of an answer are its frame.
   */
  lemma {:induction false} StatusTellsItsStep(steps: seq<Step>, j: nat)
    requires LegalRun(steps) && j < |Run(steps).pubs|
    ensures exists k :: 0 <= k < |steps| && MadeBy(steps, j, k)
    decreases |steps|
  {
    hide Next, Legal, Tells;
    var n := |steps| - 1;
    var front, w := steps[..n], Run(steps[..n]);
    var pubs := StepTells(w, steps[n]);
    PublishedParts(w, steps[n], pubs);
    assert steps[..n + 1] == steps;
    if j < |w.pubs| {
      StatusTellsItsStep(front, j);
      var k :| 0 <= k < n && MadeBy(front, j, k);
      assert front[..k] == steps[..k] && front[..k + 1] == steps[..k + 1] && front[k] == steps[k];
      assert MadeBy(steps, j, k);
    } else {
      assert MadeBy(steps, j, n);
    }
  }

  lemma PublishedParts(w: World, s: Step, pubs: seq<Evt>)
    requires PublishesOnly(w, s, pubs)
    ensures var v := Next(w, s);
            && |w.pubs| <= |v.pubs| <= |w.pubs| + 1
            && (forall j :: 0 <= j < |w.pubs| ==> v.pubs[j] == w.pubs[j])
            && (|v.pubs| == |w.pubs| + 1 ==> Tells(w.core, s, v.pubs[|w.pubs|]))
  {
    hide Tells, Next;
  }

  // ---------------------------------------------------------------- late answers

  /** The frame is the seed of the level still being waited for, and the DLL finds a key for it. */
  predicate IsStaleSeed(c: Core, frame: Bytes, key: Option<Bytes>) {
    IsAwaitedSeed(c, frame) && key.Some?
  }

  /** Any answer is published for the current id, except a seed that is turned into a key request. */
  lemma AnswerPublishes(c: Core, frame: Bytes, key: Option<Bytes>)
    ensures var outs := OnDiagResponse(c, frame, Gives(key)).1;
            && |outs| == 1
            && (outs[0].Transmit? <==> IsStaleSeed(c, frame, key))
            && (outs[0].Publish? ==> outs[0].evt.id == c.reqSeq)
  {}

  lemma SecondTerminal(pubs: seq<Evt>, p: Evt)
    requires TerminalIsLast(pubs)
    ensures TerminalIsLast(pubs + [p]) <==> !Answered(pubs, p.id)
  {
    var more := pubs + [p];
    if Answered(pubs, p.id) {
      var j :| 0 <= j < |pubs| && pubs[j].id == p.id && !IsPending(pubs[j]);
      assert more[j] == pubs[j] && more[|pubs|] == p;
    }
  }

  /** The current id has its terminal publish exactly when the core is disarmed. */
  lemma CurrentIsAnswered(w: World)
    requires Inv(w)
    ensures LastReal(w.cmds).Some? ==> (Answered(w.pubs, w.core.reqSeq) <==> !w.core.armed)
  {}

  /** A frame is published at once as a second terminal unless the timer is armed or it is a stale seed. */
  lemma LateFramePublishes(steps: seq<Step>, frame: Bytes, key: Option<Bytes>)
    requires LegalRun(steps) && LastReal(Run(steps).cmds).Some?
    ensures var w := Run(steps);
            TerminalIsLast(Next(w, Answer(frame, key)).pubs) <==> w.core.armed || IsStaleSeed(w.core, frame, key)
  {
    hide OnDiagResponse, Inv, IsStaleSeed, TerminalIsLast, Answered, IsPending, LastReal, Run, LegalRun;
    EveryRunKeepsInv(steps);
    var w := Run(steps);
    CurrentIsAnswered(w);
    InvKeepsTerminals(w);
    AnswerPublishes(w.core, frame, key);
    var outs := OnDiagResponse(w.core, frame, Gives(key)).1;
    assert outs == [outs[0]];
    OneOutput();
    if outs[0].Publish? {
      SecondTerminal(w.pubs, outs[0].evt);
    } else {
      assert w.pubs + [] == w.pubs;
    }
  }

  lemma InvKeepsTerminals(w: World)
    requires Inv(w)
    ensures TerminalIsLast(w.pubs)
  {}

  /** The world after further steps, and whether the environment keeps its promises in them. */
  function Continue(w: World, more: seq<Step>): World {
    if more == [] then w else Next(Continue(w, more[..|more| - 1]), more[|more| - 1])
  }

  predicate LegalFrom(w: World, more: seq<Step>) {
    more == [] ||
    var front := more[..|more| - 1];
    LegalFrom(w, front) && Legal(Continue(w, front), more[|more| - 1])
  }

  lemma {:induction false} ContinueKeepsInv(w: World, more: seq<Step>)
    requires Inv(w) && LegalFrom(w, more)
    ensures Inv(Continue(w, more))
    decreases |more|
  {
    if more != [] {
      hide Inv;
      ContinueKeepsInv(w, more[..|more| - 1]);
      StepKeepsInv(Continue(w, more[..|more| - 1]), more[|more| - 1]);
    }
  }

  /** A stale seed is not published, but it arms the timer of a command that has its terminal already. */
  lemma StaleSeedArms(w: World, frame: Bytes, key: Option<Bytes>)
    requires IsStaleSeed(w.core, frame, key)
    ensures var v := Next(w, Answer(frame, key));
            v.core.armed && v.core.reqSeq == w.core.reqSeq && v.pubs == w.pubs
  {
    OneOutput();
    var outs := OnDiagResponse(w.core, frame, Gives(key)).1;
    assert outs == [outs[0]];
    assert w.pubs + [] == w.pubs;
  }

  function TimeoutOf(c: Core): Evt {
    Evt(c.reqSeq, STATUS_ERR_TIMEOUT, c.reqKind, [0x7F, 0x00, 0x00])
  }

  lemma WatchdogPublishes(w: World)
    ensures Next(w, Watchdog).pubs == w.pubs + [TimeoutOf(w.core)]
  {
    OneOutput();
    assert OnTimeout(w.core).1 == [Publish(TimeoutOf(w.core))];
  }

  /** What the frame leads to, within one more step, when it comes too late. */
  lemma LateFrameBreaks(steps: seq<Step>, frame: Bytes, key: Option<Bytes>) returns (more: seq<Step>)
    requires LegalRun(steps) && LastReal(Run(steps).cmds).Some? && !Run(steps).core.armed
    ensures var v := Next(Run(steps), Answer(frame, key));
            LegalFrom(v, more) && |more| <= 1 && !TerminalIsLast(Continue(v, more).pubs)
  {
    hide OnDiagResponse, Inv, IsStaleSeed, TerminalIsLast, Answered, IsPending, LastReal, Run, LegalRun;
    var w := Run(steps);
    var v := Next(w, Answer(frame, key));
    LateFramePublishes(steps, frame, key);
    if IsStaleSeed(w.core, frame, key) {
      more := [Watchdog];
      EveryRunKeepsInv(steps);
      CurrentIsAnswered(w);
      InvKeepsTerminals(w);
      StaleSeedArms(w, frame, key);
      WatchdogPublishes(v);
      SecondTerminal(w.pubs, TimeoutOf(v.core));
      assert more[..0] == [];
      assert Continue(v, more) == Next(v, Watchdog);
    } else {
      more := [];
    }
  }

  /**
   A comment in the core promises exactly one terminal per command. After any legal run that has served
   a command, a further frame keeps that promise for good exactly when the timer is armed as it arrives:
   then no legal continuation publishes a second terminal, and otherwise one of at most one step does.
   (A late seed is not published itself, but it arms the timer again.)
   */
  lemma OneTerminalIffNotLate(steps: seq<Step>, frame: Bytes, key: Option<Bytes>)
    requires LegalRun(steps) && LastReal(Run(steps).cmds).Some?
    ensures var w := Run(steps);
            var v := Next(w, Answer(frame, key));
            (forall more :: LegalFrom(v, more) ==> TerminalIsLast(Continue(v, more).pubs)) <==> w.core.armed
  {
    hide Inv, TerminalIsLast, LastReal, Run, LegalRun, Next;
    EveryRunKeepsInv(steps);
    var w := Run(steps);
    var v := Next(w, Answer(frame, key));
    if w.core.armed {
      AnswerKeepsInv(w, frame, key);
      forall more | LegalFrom(v, more)
        ensures TerminalIsLast(Continue(v, more).pubs)
      {
        ContinueKeepsInv(v, more);
        InvKeepsTerminals(Continue(v, more));
      }
    } else {
      var more := LateFrameBreaks(steps, frame, key);
    }
  }

  /** Before any served command a frame is published for id 0, which only a TP command may have used. */
  lemma FirstAnswerIffUnused(steps: seq<Step>, frame: Bytes, key: Option<Bytes>)
    requires LegalRun(steps) && LastReal(Run(steps).cmds).None?
    ensures var w := Run(steps);
            TerminalIsLast(Next(w, Answer(frame, key)).pubs) <==> !Answered(w.pubs, 0)
  {
    hide OnDiagResponse, TerminalIsLast, Answered, IsPending, LastReal, Run, LegalRun;
    EveryRunKeepsInv(steps);
    var w := Run(steps);
    AnswerPublishes(w.core, frame, key);
    var outs := OnDiagResponse(w.core, frame, Gives(key)).1;
    assert outs == [outs[0]];
    OneOutput();
    SecondTerminal(w.pubs, outs[0].evt);
  }

  /** A run with a late answer: the clear is reported as timed out and then as done. */
  lemma LateAnswerPublishesTwice()
    ensures var cmd := Cmd(1, KIND_CLEARDTC, 0, None);
            var w := Run([Trigger(cmd), Watchdog, Answer([0x54], None)]);
            && |w.pubs| == 2
            && w.pubs[0].id == w.pubs[1].id == 1
            && !IsPending(w.pubs[0]) && !IsPending(w.pubs[1])
  {
    OneOutput();
    var cmd := Cmd(1, KIND_CLEARDTC, 0, None);
    var a, b, c := Trigger(cmd), Watchdog, Answer([0x54], None);
    var core := Core(1, KIND_CLEARDTC, false, 0, 0, true);
    assert [a, b, c][..2] == [a, b] && [a, b][..1] == [a] && [a][..0] == [];
    assert Run([a]) == World(core, [cmd], []);
    var timeout := Evt(1, STATUS_ERR_TIMEOUT, KIND_CLEARDTC, [0x7F, 0x00, 0x00]);
    assert Run([a, b]) == World(core.(armed := false), [cmd], [timeout]);
  }

  /** A run with a late seed: the security request is refused, then a seed arms the timer, which fires. */
  lemma LateSeedTimesOut()
    ensures var cmd := Cmd(1, KIND_SECURITY, 1, None);
            var steps := [Trigger(cmd), Answer([0x50], None)];
            && LegalRun(steps)
            && var w := Continue(Run(steps), [Answer([0x67, 0x01, 0xAA], Some([])), Watchdog]);
               && |w.pubs| == 2
               && w.pubs[0].id == w.pubs[1].id == 1
               && !IsPending(w.pubs[0]) && !IsPending(w.pubs[1])
  {
    OneOutput();
    var cmd := Cmd(1, KIND_SECURITY, 1, None);
    var a, b, c := Trigger(cmd), Answer([0x50], None), Answer([0x67, 0x01, 0xAA], Some([]));
    var core := Core(1, KIND_SECURITY, true, 1, 1, true);
    var refused := Evt(1, STATUS_POSITIVE, KIND_SECURITY, [0x50]);
    assert [a, b][..1] == [a] && [a][..0] == [] && [c, Watchdog][..1] == [c] && [c][..0] == [];
    assert Run([a]) == World(core, [cmd], []);
    assert Run([]) == START && LegalRun([]) && Legal(START, a);
    assert LegalRun([a]);
    assert Run([a, b]) == World(core.(armed := false), [cmd], [refused]);
    assert IsStaleSeed(core.(armed := false), [0x67, 0x01, 0xAA], Some([]));
    StaleSeedArms(Run([a, b]), [0x67, 0x01, 0xAA], Some([]));
    assert Continue(Run([a, b]), [c]) == Next(Run([a, b]), c);
    WatchdogPublishes(Next(Run([a, b]), c));
  }
}
