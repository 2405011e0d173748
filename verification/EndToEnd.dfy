/**
 From the line a client prints to the line it reads back, through the dispatcher, the mock ECU and
 the event encoder.
 */
module EndToEnd {
  import opened Base
  import opened Text
  import opened Wire
  import opened Bridge
  import opened Front
  import opened MockEcu
  import opened Refinement
  import Agreement
  import Capl
  import Dtc

  /** One line through the mock bridge: the ECU afterwards and the encoded answers, in order. */
  function Exchange(e: EcuState, line: string, tool: string): (EcuState, seq<Result<string, WireError>>) {
    match Dispatch(line, tool)
    case Queued(c) =>
      var (after, events) := FakeDispatch(e, c, false);
      (after, Lines(events))
    case Sent(text) => (e, [Ok(text)])
    case _ => (e, [])
  }

  function HexKind(v: Verb): int {
    if v == READDTC then 1 else if v == SECURITY then 3 else 4
  }

  lemma HexArgument(id: nat, v: Verb, b: Byte, tool: string)
    requires v == READDTC || v == SECURITY || v == SESSION
    ensures Execute(Command(id, v, [HexPad(b, 2)], None), tool)
            == Queued(Cmd(id, HexKind(v), b, None))
  {
    hide HexPad, ParseInt;
    ParseHexPad(b, 2);
  }

  /** The printed request is queued as the command it stands for. */
  lemma HexCommandIsQueued(id: nat, v: Verb, b: Byte, tool: string)
    requires v == READDTC || v == SECURITY || v == SESSION
    requires EncodeCommand(Command(id, v, [HexPad(b, 2)], None)).Ok?
    ensures var line := EncodeCommand(Command(id, v, [HexPad(b, 2)], None)).value;
            Dispatch(line, tool)
            == Queued(Cmd(id, HexKind(v), b, None))
  {
    hide Dispatch, Execute, Split, Join, Dec, HexPad, DecodeTokens;
    var c := Command(id, v, [HexPad(b, 2)], None);
    var ts := [Dec(id), Name(v)] + c.args;
    HexArgument(id, v, b, tool);
    ParseHexPad(b, 2);
    ParseDec(id);
    SplitJoin(ts);
    SplitTrailingSpace(Join(ts), '\n');
    Agreement.DispatchTokens(EncodeCommand(c).value, c, tool);
  }

  // ---------------------------------------------------------------- READDTC

  lemma {:induction false} JoinPairsLength(ts: seq<string>)
    requires ts != [] && forall i :: 0 <= i < |ts| ==> |ts[i]| == 2
    ensures |Join(ts)| == 3 * |ts| - 1
    decreases |ts|
  {
    if |ts| > 1 {
      JoinPairsLength(ts[1..]);
    }
  }

  /** An RSP line of `n > 0` bytes takes `3n + 5` characters after its id. */
  lemma RspFits(id: nat, data: Bytes)
    requires data != []
    ensures Encode(RspLine(id, data)).Ok? <==> |Dec(id)| + 3 * |data| + 5 <= MAX_LINE
  {
    HexTokensAreTokens(data);
    JoinPairsLength(HexTokens(data));
  }

  /** The records a table section is reported as. */
  function RecordsOf(sel: seq<(int, Byte)>): (rs: seq<Dtc.Record>) {
    seq(|sel|, i requires 0 <= i < |sel| => Dtc.RecordAt(DtcBytes(sel[i])))
  }

  lemma {:induction false} ReportIsSerialised(sel: seq<(int, Byte)>)
    ensures Report(sel) == Dtc.Serialise(RecordsOf(sel))
    decreases |sel|
  {
    if sel != [] {
      var front := sel[..|sel| - 1];
      ReportIsSerialised(front);
      assert RecordsOf(sel)[..|sel| - 1] == RecordsOf(front);
    }
  }

  /** The table entry a record stands for. */
  function EntryOf(r: Dtc.Record): (int, Byte) {
    (r.b2 * 0x1_0000 + r.b1 * 0x100 + r.b0, r.status)
  }

  predicate Is24Bit(entry: (int, Byte)) {
    0 <= entry.0 < 0x100_0000
  }

  lemma ThreeBytes(n: int)
    requires 0 <= n < 0x100_0000
    ensures n == ((n / 0x1_0000) % 256) * 0x1_0000 + ((n / 0x100) % 256) * 0x100 + n % 256
  {
    assert n / 0x1_0000 == (n / 0x100) / 0x100;
  }

  lemma EntryRoundTrip(entry: (int, Byte))
    requires Is24Bit(entry)
    ensures EntryOf(Dtc.RecordAt(DtcBytes(entry))) == entry
  {
    ThreeBytes(entry.0);
  }

  lemma {:induction false} SelectKeeps24Bit(dtcs: seq<(int, Byte)>, mask: Byte)
    requires forall i :: 0 <= i < |dtcs| ==> Is24Bit(dtcs[i])
    ensures forall i :: 0 <= i < |Select(dtcs, mask)| ==> Is24Bit(Select(dtcs, mask)[i])
    decreases |dtcs|
  {
    if dtcs != [] {
      SelectKeeps24Bit(dtcs[..|dtcs| - 1], mask);
    }
  }

  lemma ReadDtcHandled(e: EcuState, mask: Byte)
    requires NothingInjected(e)
    ensures Handle(e.(injectPending := false), [0x19, 0x02, mask])
            == (e, Reply([0x59, 0x02, 0xFF] + Report(Select(e.dtcs, mask))))
  {}

  lemma ReadDtcDispatch(e: EcuState, id: nat, mask: Byte)
    ensures FakeDispatch(e, Cmd(id, KIND_READDTC, mask, None), false)
            == RespondUds(e, id, KIND_READDTC, [0x19, 0x02, mask], false)
  {
    assert RequestBytes(Cmd(id, KIND_READDTC, mask, None)) == [0x19, 0x02, mask];
  }

  lemma OneReply(e: EcuState, id: nat, kind: int, req: Bytes, after: EcuState, rsp: Bytes)
    requires NothingInjected(e) && req != [] && rsp != []
    requires Handle(e.(injectPending := false), req) == (after, Reply(rsp))
    ensures RespondUds(e, id, kind, req, false)
            == (after, [Evt(id, if rsp[0] == 0x7F then STATUS_NEGATIVE else STATUS_POSITIVE, kind, rsp)])
  {
    var v := Evt(id, if rsp[0] == 0x7F then STATUS_NEGATIVE else STATUS_POSITIVE, kind, rsp);
    assert PendingEvents(e, id, kind, req[0]) + [v] == [v];
  }

  lemma ReadDtcServed(e: EcuState, id: nat, mask: Byte)
    requires NothingInjected(e)
    ensures FakeDispatch(e, Cmd(id, KIND_READDTC, mask, None), false)
            == (e, [Evt(id, STATUS_POSITIVE, KIND_READDTC, [0x59, 0x02, 0xFF] + Report(Select(e.dtcs, mask)))])
  {
    ReadDtcHandled(e, mask);
    ReadDtcDispatch(e, id, mask);
    OneReply(e, id, KIND_READDTC, [0x19, 0x02, mask], e, [0x59, 0x02, 0xFF] + Report(Select(e.dtcs, mask)));
  }

  lemma ParsedReport(sel: seq<(int, Byte)>)
    requires forall i :: 0 <= i < |sel| ==> Is24Bit(sel[i])
    ensures Dtc.ParsePayload([0x59, 0x02, 0xFF] + Report(sel)) == Some((0xFF, RecordsOf(sel)))
    ensures forall i :: 0 <= i < |sel| ==> EntryOf(RecordsOf(sel)[i]) == sel[i]
  {
    ReportIsSerialised(sel);
    Dtc.ParseSerialised(0xFF, RecordsOf(sel));
    forall i | 0 <= i < |sel|
      ensures EntryOf(RecordsOf(sel)[i]) == sel[i]
    {
      EntryRoundTrip(sel[i]);
    }
  }

  /** One queued command with one event: one answer. */
  lemma ExchangeOfOne(e: EcuState, line: string, tool: string, c: Cmd, after: EcuState, v: Evt)
    requires Dispatch(line, tool) == Queued(c) && FakeDispatch(e, c, false) == (after, [v])
    ensures Exchange(e, line, tool) == (after, [EncodeResponse(v)])
  {
    hide Dispatch, FakeDispatch;
    var (last, answers) := Exchange(e, line, tool);
    assert |answers| == 1;
    assert answers[0] == EncodeResponse(v);
    assert answers == [EncodeResponse(v)];
    assert last == after;
  }

  lemma PositiveLine(id: nat, kind: int, data: Bytes)
    ensures EncodeResponse(Evt(id, STATUS_POSITIVE, kind, data)) == Encode(RspLine(id, data))
  {
    hide Encode;
  }

  lemma ReadDtcExchange(e: EcuState, id: nat, mask: Byte, tool: string)
    requires NothingInjected(e)
    requires EncodeCommand(Command(id, READDTC, [HexPad(mask, 2)], None)).Ok?
    ensures Exchange(e, EncodeCommand(Command(id, READDTC, [HexPad(mask, 2)], None)).value, tool)
            == (e, [Encode(RspLine(id, [0x59, 0x02, 0xFF] + Report(Select(e.dtcs, mask))))])
  {
    hide Dispatch, FakeDispatch, EncodeResponse, EncodeCommand, Encode, Exchange, Report;
    var line := EncodeCommand(Command(id, READDTC, [HexPad(mask, 2)], None)).value;
    var data := [0x59, 0x02, 0xFF] + Report(Select(e.dtcs, mask));
    HexCommandIsQueued(id, READDTC, mask, tool);
    ReadDtcServed(e, id, mask);
    ExchangeOfOne(e, line, tool, Cmd(id, KIND_READDTC, mask, None), e, Evt(id, STATUS_POSITIVE, KIND_READDTC, data));
    PositiveLine(id, KIND_READDTC, data);
  }

  /**
   READDTC, from printed request to decoded records: the answer is the table entries whose status shares a
   bit with the mask, each once and in table order, with their codes; and it can be sent exactly when its
   line fits.
   */
  lemma ReadDtcEndToEnd(e: EcuState, id: nat, mask: Byte, tool: string)
    requires NothingInjected(e) && forall i :: 0 <= i < |e.dtcs| ==> Is24Bit(e.dtcs[i])
    requires EncodeCommand(Command(id, READDTC, [HexPad(mask, 2)], None)).Ok?
    ensures var line := EncodeCommand(Command(id, READDTC, [HexPad(mask, 2)], None)).value;
            var sel := Select(e.dtcs, mask);
            var (after, answers) := Exchange(e, line, tool);
            && after == e && |answers| == 1 && IsSelection(sel, e.dtcs, mask)
            && (answers[0].Ok? <==> |Dec(id)| + 12 * |sel| + 14 <= MAX_LINE)
            && (answers[0].Ok? ==>
                  var r := ParseResponse(answers[0].value);
                  && r.Ok? && r.value.RspLine? && r.value.id == id
                  && Dtc.ParsePayload(r.value.data) == Some((0xFF, RecordsOf(sel)))
                  && forall i :: 0 <= i < |sel| ==> EntryOf(RecordsOf(sel)[i]) == sel[i])
  {
    var sel := Select(e.dtcs, mask);
    var data := [0x59, 0x02, 0xFF] + Report(sel);
    hide IsSelection, Exchange, EncodeCommand, ParseResponse;
    var at := SelectIsSelection(e.dtcs, mask);
    ReadDtcExchange(e, id, mask, tool);
    RspFits(id, data);
    SelectKeeps24Bit(e.dtcs, mask);
    ParsedReport(sel);
    if Encode(RspLine(id, data)).Ok? {
      ResponseRoundTrip(RspLine(id, data));
    }
  }

  /**
   A report too long for a line silences the connection: neither it nor any later event is delivered.
   A report that fits is delivered and the later ones go on.
   */
  lemma OverlongReportEndsThePump(e: EcuState, id: nat, mask: Byte, tool: string, later: seq<Evt>)
    requires NothingInjected(e)
    requires EncodeCommand(Command(id, READDTC, [HexPad(mask, 2)], None)).Ok?
    ensures var line := EncodeCommand(Command(id, READDTC, [HexPad(mask, 2)], None)).value;
            var answers, k := Exchange(e, line, tool).1, |Select(e.dtcs, mask)|;
            && |answers| == 1
            && (answers[0].Ok? <==> |Dec(id)| + 12 * k + 14 <= MAX_LINE)
            && Delivered(answers + Lines(later))
               == if answers[0].Ok? then [answers[0].value] + Delivered(Lines(later)) else []
  {
    hide Encode, EncodeCommand, EncodeResponse, Exchange, Select, Report, Dec, Lines, Delivered, HexPad;
    var data := [0x59, 0x02, 0xFF] + Report(Select(e.dtcs, mask));
    ReadDtcExchange(e, id, mask, tool);
    ReportLength(e, mask);
    RspFits(id, data);
    DeliveredFirst(Encode(RspLine(id, data)), Lines(later));
  }

  lemma ReportLength(e: EcuState, mask: Byte)
    ensures |Report(Select(e.dtcs, mask))| == 4 * |Select(e.dtcs, mask)|
  {}

  /** A table of `n` entries that every mask with a common bit selects. */
  function FullTable(n: nat): seq<(int, Byte)> {
    seq(n, _ => (0, 0xFF))
  }

  lemma {:induction false} FullTableSelected(n: nat)
    ensures Select(FullTable(n), 0xFF) == FullTable(n)
  {
    if n > 0 {
      FullTableSelected(n - 1);
      assert FullTable(n)[..n - 1] == FullTable(n - 1);
      assert FullTable(n - 1) + [(0, 0xFF)] == FullTable(n);
      assert Selected(0xFF, 0xFF);
    }
  }

  /** 341 records are enough for the first request of a client. */
  lemma LongTableEndsThePump(seed: Bytes, tool: string, later: seq<Evt>)
    ensures var line := EncodeCommand(Command(1, READDTC, [HexPad(0xFF, 2)], None));
            && line.Ok?
            && Delivered(Exchange(Fresh(FullTable(341), seed), line.value, tool).1 + Lines(later)) == []
  {
    hide Exchange, Delivered, Lines, FullTable, Select;
    ShortRequest();
    FullTableSelected(341);
    OverlongReportEndsThePump(Fresh(FullTable(341), seed), 1, 0xFF, tool, later);
    FullTableLength(341);
  }

  lemma FullTableLength(n: nat)
    ensures |FullTable(n)| == n
  {}

  lemma ShortRequest()
    ensures EncodeCommand(Command(1, READDTC, [HexPad(0xFF, 2)], None)).Ok? && |Dec(1)| == 1
  {
    JoinTwo(Dec(1), "READDTC", [HexPad(0xFF, 2)]);
    JoinOne(HexPad(0xFF, 2));
    HexPadByte(0xFF);
  }

  // ---------------------------------------------------------------- SESSION and CLEARDTC

  lemma ServedPositive(e: EcuState, id: nat, kind: int, req: Bytes, after: EcuState, rsp: Bytes, line: string,
          tool: string)
    requires NothingInjected(e) && req != [] && rsp != [] && rsp[0] != 0x7F
    requires Handle(e, req) == (after, Reply(rsp))
    requires exists c :: Dispatch(line, tool) == Queued(c) && c.id == id && IsServedAs(c, kind, req)
    ensures Exchange(e, line, tool) == (after, [Encode(RspLine(id, rsp))])
  {
    hide Dispatch, Handle, Exchange, EncodeResponse, Encode;
    var c :| Dispatch(line, tool) == Queued(c) && c.id == id && IsServedAs(c, kind, req);
    assert e.(injectPending := false) == e;
    OneReply(e, id, kind, req, after, rsp);
    ExchangeOfOne(e, line, tool, c, after, Evt(id, STATUS_POSITIVE, kind, rsp));
    PositiveLine(id, kind, rsp);
  }

  /** The mock serves the command by sending `req` to the ECU. */
  predicate IsServedAs(c: Cmd, kind: int, req: Bytes) {
    && c.kind == kind && (kind == KIND_CLEARDTC || kind == KIND_SESSION)
    && RequestBytes(c) == req
  }

  /** SESSION: the ECU changes to the session asked for, and says so; nothing else changes. */
  lemma SessionEndToEnd(e: EcuState, id: nat, session: Byte, tool: string)
    requires NothingInjected(e)
    requires EncodeCommand(Command(id, SESSION, [HexPad(session, 2)], None)).Ok?
    ensures var line := EncodeCommand(Command(id, SESSION, [HexPad(session, 2)], None)).value;
            var rsp := [0x50, session, 0x00, 0x32, 0x01, 0xF4];
            var (after, answers) := Exchange(e, line, tool);
            && after == e.(session := session) && |answers| == 1
            && (answers[0].Ok? <==> |Dec(id)| + 23 <= MAX_LINE)
            && (answers[0].Ok? ==> ParseResponse(answers[0].value) == Ok(RspLine(id, rsp)))
  {
    hide Dispatch, Exchange, EncodeResponse, Encode, EncodeCommand, ParseResponse, Dec, HexPad;
    var line := EncodeCommand(Command(id, SESSION, [HexPad(session, 2)], None)).value;
    var rsp: Bytes := [0x50, session, 0x00, 0x32, 0x01, 0xF4];
    var c := Cmd(id, KIND_SESSION, session, None);
    HexCommandIsQueued(id, SESSION, session, tool);
    SessionHandled(e, session);
    assert IsServedAs(c, KIND_SESSION, [0x10, session]);
    ServedPositive(e, id, KIND_SESSION, [0x10, session], e.(session := session), rsp, line, tool);
    RspFits(id, rsp);
    if Encode(RspLine(id, rsp)).Ok? {
      ResponseRoundTrip(RspLine(id, rsp));
    }
  }

  lemma SessionHandled(e: EcuState, session: Byte)
    requires NothingInjected(e)
    ensures Handle(e, [0x10, session]) == (e.(session := session), Reply([0x50, session, 0x00, 0x32, 0x01, 0xF4]))
  {}

  /** CLEARDTC: acknowledged, and without any effect on the table. */
  lemma ClearDtcEndToEnd(e: EcuState, id: nat, tool: string)
    requires NothingInjected(e) && EncodeCommand(Command(id, CLEARDTC, [], None)).Ok?
    ensures var line := EncodeCommand(Command(id, CLEARDTC, [], None)).value;
            var (after, answers) := Exchange(e, line, tool);
            && after == e && |answers| == 1
            && answers[0].Ok? && ParseResponse(answers[0].value) == Ok(RspLine(id, [0x54]))
  {
    hide Exchange, EncodeResponse, Encode, ParseResponse, Dec, Dispatch;
    var line := EncodeCommand(Command(id, CLEARDTC, [], None)).value;
    var rsp: Bytes := [0x54];
    ClearIsQueued(id, tool);
    assert Handle(e, [0x14, 0xFF, 0xFF, 0xFF]) == (e, Reply(rsp));
    assert IsServedAs(Cmd(id, KIND_CLEARDTC, 0, None), KIND_CLEARDTC, [0x14, 0xFF, 0xFF, 0xFF]);
    ServedPositive(e, id, KIND_CLEARDTC, [0x14, 0xFF, 0xFF, 0xFF], e, rsp, line, tool);
    ClearLength(id);
    RspFits(id, rsp);
    ResponseRoundTrip(RspLine(id, rsp));
  }

  lemma ClearLength(id: nat)
    requires EncodeCommand(Command(id, CLEARDTC, [], None)).Ok?
    ensures |Dec(id)| + 10 <= MAX_LINE
  {
    JoinTwo(Dec(id), "CLEARDTC", []);
  }

  lemma ClearIsQueued(id: nat, tool: string)
    requires EncodeCommand(Command(id, CLEARDTC, [], None)).Ok?
    ensures Dispatch(EncodeCommand(Command(id, CLEARDTC, [], None)).value, tool)
            == Queued(Cmd(id, KIND_CLEARDTC, 0, None))
  {
    hide Dispatch, Split, Dec, Join;
    var c := Command(id, CLEARDTC, [], None);
    var ts := [Dec(id), Name(CLEARDTC)] + c.args;
    ParseDec(id);
    SplitJoin(ts);
    SplitTrailingSpace(Join(ts), '\n');
    Agreement.DispatchTokens(EncodeCommand(c).value, c, tool);
  }

  // ---------------------------------------------------------------- SECURITY

  /** The response line a SECURITY request ends in. */
  function SecurityVerdict(e: EcuState, id: nat, level: Byte): Response {
    if IsOdd(level) then OkSecLine(id, level)
    else NrcLine(id, 0x27, if e.pendingSeedLevel.None? then 0x24 else 0x35)
  }

  lemma SecurityServed(e: EcuState, id: nat, level: Byte)
    requires NothingInjected(e) && e.seed != [] && level < 0xFF
    ensures var (after, events) := FakeDispatch(e, Cmd(id, KIND_SECURITY, level, None), false);
            && after == (if IsOdd(level) then e.(unlocked := true, pendingSeedLevel := None) else e)
            && |events| == 1 && ResponseOf(events[0]) == Ok(SecurityVerdict(e, id, level))
  {
    hide Handle, TestKey;
    assert e.(injectPending := false) == e;
    if IsOdd(level) {
      SeedThenKey(e, level);
    } else {
      EvenLevelIsRefused(e, level);
    }
  }

  /**
   SECURITY, from printed request to verdict: an odd level below FF unlocks and is echoed, an even
   level is refused and leaves the ECU as it was.
   */
  lemma SecurityEndToEnd(e: EcuState, id: nat, level: Byte, tool: string)
    requires NothingInjected(e) && e.seed != [] && level < 0xFF
    requires EncodeCommand(Command(id, SECURITY, [HexPad(level, 2)], None)).Ok?
    ensures var line := EncodeCommand(Command(id, SECURITY, [HexPad(level, 2)], None)).value;
            var (after, answers) := Exchange(e, line, tool);
            && after == (if IsOdd(level) then e.(unlocked := true, pendingSeedLevel := None) else e)
            && answers == [Encode(SecurityVerdict(e, id, level))]
            && answers[0].Ok? && ParseResponse(answers[0].value) == Ok(SecurityVerdict(e, id, level))
  {
    hide FakeDispatch, Dispatch, EncodeResponse, ParseResponse, Encode, EncodeCommand, SecurityVerdict, WellFormed,
         ResponseOf;
    var line := EncodeCommand(Command(id, SECURITY, [HexPad(level, 2)], None)).value;
    var c := Cmd(id, KIND_SECURITY, level, None);
    HexCommandIsQueued(id, SECURITY, level, tool);
    SecurityServed(e, id, level);
    var (after, events) := FakeDispatch(e, c, false);
    assert events == [events[0]];
    ExchangeOfOne(e, line, tool, c, after, events[0]);
    EncodeVerdict(events[0], SecurityVerdict(e, id, level));
    VerdictFits(e, id, level);
    ResponseRoundTrip(SecurityVerdict(e, id, level));
  }

  lemma EncodeVerdict(v: Evt, r: Response)
    requires ResponseOf(v) == Ok(r)
    ensures EncodeResponse(v) == Encode(r)
  {
    hide ResponseOf, Encode;
  }

  /** The verdict is two characters shorter than the request. */
  lemma VerdictFits(e: EcuState, id: nat, level: Byte)
    requires EncodeCommand(Command(id, SECURITY, [HexPad(level, 2)], None)).Ok?
    ensures WellFormed(SecurityVerdict(e, id, level)) && Encode(SecurityVerdict(e, id, level)).Ok?
  {
    hide Dec, HexPad;
    JoinTwo(Dec(id), "SECURITY", [HexPad(level, 2)]);
    JoinOne(HexPad(level, 2));
    HexPadByte(level);
    HexPadByte(0x27);
    HexPadByte(0x24);
    HexPadByte(0x35);
    var r := SecurityVerdict(e, id, level);
    assert |Body(r)| == |Dec(id)| + 10;
  }

  /** Level FF issues a seed, then overflows: the ECU waits for a key and no line is sent. */
  lemma SecurityFFIsSilent(e: EcuState, id: nat, tool: string)
    requires NothingInjected(e)
    requires EncodeCommand(Command(id, SECURITY, [HexPad(0xFF, 2)], None)).Ok?
    ensures var line := EncodeCommand(Command(id, SECURITY, [HexPad(0xFF, 2)], None)).value;
            var (after, answers) := Exchange(e, line, tool);
            after == e.(pendingSeedLevel := Some(0xFF)) && answers == []
  {
    HexCommandIsQueued(id, SECURITY, 0xFF, tool);
    LevelFFIsSilent(e, id);
  }

  lemma LevelFFIsSilent(e: EcuState, id: nat)
    requires NothingInjected(e)
    ensures FakeDispatch(e, Cmd(id, KIND_SECURITY, 0xFF, None), false) == (e.(pendingSeedLevel := Some(0xFF)), [])
  {
    assert e.(injectPending := false) == e;
    assert Handle(e, [0x27, 0xFF]) == (e.(pendingSeedLevel := Some(0xFF)), Reply([0x67, 0xFF] + e.seed));
    assert PendingEvents(e, id, KIND_SECURITY, 0x27) + [] == [];
  }

  // ---------------------------------------------------------------- tool-side errors

  /** The line can be sent exactly when it takes at most `size` characters with its newline, and reads back as `r`. */
  predicate ReadsBack(line: Result<string, WireError>, r: Response, size: nat) {
    && (line.Ok? <==> size <= MAX_LINE)
    && (line.Ok? ==> ParseResponse(line.value) == Ok(r))
  }

  lemma ErrReadsBack(v: Evt, id: nat, code: nat, text: string)
    requires ResponseOf(v) == Ok(ErrLine(id, code, text)) && IsToken(text) && 100 <= code < 1000
    ensures ReadsBack(EncodeResponse(v), ErrLine(id, code, text), |Dec(id)| + 10 + |text|)
  {
    hide ResponseOf, ParseResponse, Dec;
    var r := ErrLine(id, code, text);
    EncodeVerdict(v, r);
    SplitToken(text);
    ThreeDigits(code);
    assert |Body(r)| == |Dec(id)| + 4 + 1 + 3 + 1 + |text|;
    if Encode(r).Ok? {
      ResponseRoundTrip(r);
    }
  }

  /** A timeout, made up by the poll loop or reported by the node, is read as `ERR 504 ecu_timeout`. */
  lemma TimeoutReadsBack(id: nat, kind: int, data: Bytes)
    ensures ReadsBack(EncodeResponse(Evt(id, 4, kind, data)), ErrLine(id, 504, "ecu_timeout"), |Dec(id)| + 21)
  {
    hide EncodeResponse, ReadsBack, Dec;
    ErrReadsBack(Evt(id, 4, kind, data), id, 504, "ecu_timeout");
  }

  /** A failed key generation is read as `ERR 500 keygen_fail`. */
  lemma KeygenFailureReadsBack(id: nat, kind: int, data: Bytes)
    ensures ReadsBack(EncodeResponse(Evt(id, 3, kind, data)), ErrLine(id, 500, "keygen_fail"), |Dec(id)| + 21)
  {
    hide EncodeResponse, ReadsBack, Dec;
    ErrReadsBack(Evt(id, 3, kind, data), id, 500, "keygen_fail");
  }

  /** The core as a command leaves it. */
  function Asked(core: Capl.Core, c: Cmd): Capl.Core {
    Capl.OnReqTrigger(core, c.id, c.kind, c.arg, if c.data.Some? then c.data.value else []).0
  }

  /** SECURITY through the node: the seed arrives, key generation fails, and the client reads 500. */
  lemma KeygenFailureAtNode(core: Capl.Core, c: Cmd, seed: Bytes)
    requires WellFormedCmd(c) && c.kind == KIND_SECURITY
    ensures var (after, outs) := Capl.OnDiagResponse(Asked(core, c), [0x67, c.arg] + seed, (_, _) => None);
            && !after.armed && !after.secActive
            && |outs| == 1 && outs[0].Publish?
            && ReadsBack(EncodeResponse(outs[0].evt), ErrLine(c.id, 500, "keygen_fail"), |Dec(c.id)| + 21)
  {
    hide EncodeResponse, ReadsBack, Dec;
    KeygenFailureReadsBack(c.id, KIND_SECURITY, []);
  }

  /** Any command through the node that the ECU leaves unanswered: the client reads 504. */
  lemma TimeoutAtNode(core: Capl.Core, c: Cmd)
    requires WellFormedCmd(c) && !IsTp(c.kind)
    ensures var (after, outs) := Capl.OnTimeout(Asked(core, c));
            && !after.armed && (c.kind == KIND_SECURITY ==> !after.secActive)
            && |outs| == 1 && outs[0].Publish?
            && ReadsBack(EncodeResponse(outs[0].evt), ErrLine(c.id, 504, "ecu_timeout"), |Dec(c.id)| + 21)
  {
    hide EncodeResponse, ReadsBack, Dec;
    TimeoutReadsBack(c.id, c.kind, [0x7F, 0x00, 0x00]);
  }

  // ---------------------------------------------------------------- either backend

  /**
   Whatever command line a client sends, the mock and the CAPL node on the same ECU send back the same
   lines and leave the same ECU, except exactly in the three families of `Diverges`.
   */
  lemma BackendsAnswerAlike(core: Capl.Core, e: EcuState, line: string, tool: string, n: nat)
    requires Dispatch(line, tool).Queued? && n >= 3
    ensures var c := Dispatch(line, tool).cmd;
            && WellFormedCmd(c)
            && (Ready(core, c.id) && FitsNode(e, c) ==>
                  var b := CaplDispatch(core, e, c, n);
                  && (Exchange(e, line, tool).1 == Lines(b.pubs) <==> !Diverges(e, c))
                  && (!Diverges(e, c) ==> Exchange(e, line, tool).0 == b.ecu && Settled(b)))
  {
    hide Dispatch, FakeDispatch, CaplDispatch, EncodeResponse, FitsNode;
    QueuedIsWellFormed(line, tool);
    var c := Dispatch(line, tool).cmd;
    var (after, events) := FakeDispatch(e, c, false);
    assert Exchange(e, line, tool).0 == after;
    assert Exchange(e, line, tool).1 == Lines(events);
    if Ready(core, c.id) && FitsNode(e, c) {
      LinesAgreeIffNotDiverging(core, e, c, n);
    }
  }
}
