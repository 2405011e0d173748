/**
 The bridge and the Dart client understand each other: every line the bridge emits is read by both
 codecs with the same fields, and every command the Dart client prints is queued as intended.
 */
module Agreement {
  import opened Base
  import opened Text
  import opened Wire
  import opened Bridge
  import opened Front
  import DartCodec

  // ---------------------------------------------------------------- bridge to client

  /** The free-text fields hold no character the codecs disagree on. */
  predicate PlainFields(r: Response) {
    match r
    case ReadyLine(_, _, tool, _) => DartCodec.PlainText(tool)
    case ErrLine(_, _, text) => DartCodec.PlainText(text)
    case EvtLine(_, name, args) =>
      DartCodec.PlainText(name) && forall i :: 0 <= i < |args| ==> DartCodec.PlainText(args[i])
    case _ => true
  }

  lemma NumeralsArePlain(s: string)
    requires forall i :: 0 <= i < |s| ==> DigitValue(s[i]) < 16 || s[i] == '-'
    ensures DartCodec.PlainText(s)
  {}

  lemma DecIsPlain(n: int)
    ensures DartCodec.PlainText(Dec(n))
  {
    var digits := Digits(if n < 0 then -n else n, 10);
    DigitsAreDigits(if n < 0 then -n else n, 10);
    NumeralsArePlain(digits);
  }

  lemma Hex02IsPlain(n: int)
    ensures DartCodec.PlainText(Hex02(n))
  {
    if n < 0 {
      DigitsAreDigits(-n, 16);
      NumeralsArePlain(Digits(-n, 16));
    } else {
      ParseHexPad(n, 2);
      NumeralsArePlain(HexPad(n, 2));
    }
  }

  lemma PairIsPlain(key: string, val: string)
    requires DartCodec.PlainText(key) && DartCodec.PlainText(val)
    ensures DartCodec.PlainText(Pair(key, val))
  {}

  lemma ReadyTokensArePlain(r: Response)
    requires r.ReadyLine? && WellFormed(r) && PlainFields(r)
    ensures forall i :: 0 <= i < |ArgTokens(r)| ==> DartCodec.PlainText(ArgTokens(r)[i])
  {
    DecIsPlain(r.proto);
    PairIsPlain("proto", Dec(r.proto));
    PairIsPlain("tool", r.tool);
    PairIsPlain("transport", r.transport);
  }

  lemma ArgTokensArePlain(r: Response)
    requires WellFormed(r) && PlainFields(r)
    ensures forall i :: 0 <= i < |ArgTokens(r)| ==> DartCodec.PlainText(ArgTokens(r)[i])
  {
    match r
    case ReadyLine(_, _, _, _) => ReadyTokensArePlain(r);
    case RspLine(_, data) =>
      forall i | 0 <= i < |data|
        ensures DartCodec.PlainText(HexTokens(data)[i])
      {
        Hex02IsPlain(data[i]);
      }
    case NrcLine(_, sid, nrc) => Hex02IsPlain(sid); Hex02IsPlain(nrc);
    case OkTpLine(_) =>
    case OkSecLine(_, level) => Hex02IsPlain(level);
    case ErrLine(_, code, text) => DecIsPlain(code); DartCodec.PlainSplit(text);
    case EvtLine(_, _, _) =>
    case PongLine(_) =>
  }

  lemma LineTokensArePlain(r: Response)
    requires WellFormed(r) && PlainFields(r)
    ensures forall i :: 0 <= i < |LineTokens(r)| ==> DartCodec.PlainText(LineTokens(r)[i])
  {
    ArgTokensArePlain(r);
    DecIsPlain(r.id);
    assert DartCodec.PlainText(Name(VerbOfResponse(r)));
  }

  lemma BodyIsPlain(r: Response)
    requires WellFormed(r) && PlainFields(r)
    ensures DartCodec.PlainText(Body(r))
  {
    LineTokensArePlain(r);
    DartCodec.PlainJoin(LineTokens(r));
    BodyIsJoin(r);
  }

  lemma StrippedLine(r: Response)
    requires WellFormed(r) && Encode(r).Ok?
    ensures var line := Encode(r).value;
            && line[..|line| - 1] == Body(r)
            && ParseResponse(Body(r)) == Ok(r)
  {
    var line := Encode(r).value;
    assert line[..|line| - 1] == Body(r);
    ResponseRoundTrip(r);
  }

  /** A printed response, newline stripped, is read alike by the two codecs. */
  lemma BothReadResponse(r: Response)
    requires WellFormed(r) && PlainFields(r) && DartCodec.FitsDart(r) && Encode(r).Ok?
    ensures var line := Encode(r).value;
            && DartCodec.ParseResponse(line[..|line| - 1]) == Some(r)
            && ParseResponse(line[..|line| - 1]) == Ok(r)
  {
    StrippedLine(r);
    BodyIsPlain(r);
    DartCodec.CodecsAgree(Body(r));
  }

  /** What both clients must make of a line of the bridge. */
  predicate ReadAlike(line: string, id: int) {
    && line != ""
    && ParseResponse(line[..|line| - 1]).Ok?
    && ParseResponse(line[..|line| - 1]).value.id == id
    && DartCodec.ParseResponse(line[..|line| - 1]) == Some(ParseResponse(line[..|line| - 1]).value)
  }

  lemma ErrTextIsWellFormed(id: nat, code: int, text: string)
    requires IsToken(text) && forall i :: 0 <= i < |text| ==> text[i] == '_' || 'a' <= text[i] <= 'z'
    ensures WellFormed(ErrLine(id, code, text)) && PlainFields(ErrLine(id, code, text))
  {
    SplitToken(text);
  }

  lemma ResponseIsReadAlike(r: Response)
    requires WellFormed(r) && PlainFields(r) && DartCodec.FitsDart(r) && Encode(r).Ok?
    ensures ReadAlike(Encode(r).value, r.id)
  {
    BothReadResponse(r);
  }

  lemma KeygenErrIsWellFormed(id: nat)
    ensures WellFormed(ErrLine(id, 500, "keygen_fail")) && PlainFields(ErrLine(id, 500, "keygen_fail"))
  {
    ErrTextIsWellFormed(id, 500, "keygen_fail");
  }

  lemma TimeoutErrIsWellFormed(id: nat)
    ensures WellFormed(ErrLine(id, 504, "ecu_timeout")) && PlainFields(ErrLine(id, 504, "ecu_timeout"))
  {
    ErrTextIsWellFormed(id, 504, "ecu_timeout");
  }

  lemma EventResponseIsWellFormed(v: Evt)
    requires 0 <= v.id <= DartCodec.INT64_MAX && ResponseOf(v).Ok?
    ensures var r := ResponseOf(v).value;
            WellFormed(r) && PlainFields(r) && DartCodec.FitsDart(r) && r.id == v.id
  {
    if v.status == STATUS_ERR_KEYGEN {
      KeygenErrIsWellFormed(v.id);
    } else if v.status == STATUS_ERR_TIMEOUT {
      TimeoutErrIsWellFormed(v.id);
    }
  }

  /** Every event line. */
  lemma EventLinesAgree(v: Evt)
    requires 0 <= v.id <= DartCodec.INT64_MAX && EncodeResponse(v).Ok?
    ensures ReadAlike(EncodeResponse(v).value, v.id)
  {
    EventResponseIsWellFormed(v);
    ResponseIsReadAlike(ResponseOf(v).value);
  }

  /** The banner sent on connection. */
  lemma BannerAgrees(tool: string)
    requires NoSpaces(tool) && DartCodec.PlainText(tool) && Encode(ReadyLine(0, PROTO, tool, "B")).Ok?
    ensures ReadAlike(Encode(ReadyLine(0, PROTO, tool, "B")).value, 0)
  {
    ResponseIsReadAlike(ReadyLine(0, PROTO, tool, "B"));
  }

  lemma ReplyAgrees(r: Response)
    requires WellFormed(r) && PlainFields(r) && DartCodec.FitsDart(r) && Send(r).Sent?
    ensures ReadAlike(Send(r).text, r.id)
  {
    ResponseIsReadAlike(r);
  }

  lemma BadArgsAgrees(id: nat)
    requires id <= DartCodec.INT64_MAX && BadArgs(id).Sent?
    ensures ReadAlike(BadArgs(id).text, id)
  {
    hide Send, ReadAlike, WellFormed, PlainFields;
    ErrTextIsWellFormed(id, 422, "bad_args");
    ReplyAgrees(ErrLine(id, 422, "bad_args"));
  }

  lemma UnknownVerbAgrees(id: nat)
    requires id <= DartCodec.INT64_MAX && UnknownVerb(id).Sent?
    ensures ReadAlike(UnknownVerb(id).text, id)
  {
    hide Send, ReadAlike, WellFormed, PlainFields;
    ErrTextIsWellFormed(id, 400, "unknown_verb");
    ReplyAgrees(ErrLine(id, 400, "unknown_verb"));
  }

  lemma ExecuteRepliesAgree(c: Command, tool: string)
    requires WellFormedCommand(c) && c.id <= DartCodec.INT64_MAX
    requires NoSpaces(tool) && DartCodec.PlainText(tool)
    requires Execute(c, tool).Sent?
    ensures ReadAlike(Execute(c, tool).text, c.id)
  {
    if c.verb == HELLO {
      ReplyAgrees(ReadyLine(c.id, PROTO, tool, "B"));
    } else if c.verb == PING {
      ReplyAgrees(PongLine(c.id));
    } else {
      OtherVerbsQueue(c, tool);
      BadArgsAgrees(c.id);
    }
  }

  /** Every immediate reply, whatever the client sent. */
  lemma ReplyLinesAgree(line: string, tool: string)
    requires NoSpaces(tool) && DartCodec.PlainText(tool)
    requires ReplyId(Split(line)) <= DartCodec.INT64_MAX
    requires Dispatch(line, tool).Sent?
    ensures ReadAlike(Dispatch(line, tool).text, ReplyId(Split(line)))
  {
    SplitStrip(line);
    var tokens := Split(line);
    if |tokens| >= 2 && !IsClientWord(tokens[1]) {
      UnknownVerbAgrees(ReplyId(tokens));
    } else if ParseCommand(Strip(line)).Err? {
      BadArgsAgrees(ReplyId(tokens));
    } else {
      ParsedCommandIsWellFormed(Strip(line));
      AcceptedKeepsId(Strip(line));
      ExecuteRepliesAgree(ParseCommand(Strip(line)).value, tool);
    }
  }

  // ---------------------------------------------------------------- client to bridge

  /** The requests the Dart client can print. */
  datatype DartRequest =
    | Session(session: Byte)
    | ReadDtc(mask: Byte)
    | ClearDtc
    | Security(level: Byte)
    | TpStart
    | TpStop
    | Raw(data: Bytes)

  function Printed(id: nat, r: DartRequest): string {
    match r
    case Session(session) => DartCodec.EncodeSession(id, session)
    case ReadDtc(mask) => DartCodec.EncodeReadDtc(id, mask)
    case ClearDtc => DartCodec.EncodeClearDtc(id)
    case Security(level) => DartCodec.EncodeSecurity(id, level)
    case TpStart => DartCodec.EncodeTpStart(id)
    case TpStop => DartCodec.EncodeTpStop(id)
    case Raw(data) => DartCodec.EncodeRaw(id, data)
  }

  /** What the request asks the diagnostic core for. */
  function Intended(id: nat, r: DartRequest): Cmd {
    match r
    case Session(session) => Cmd(id, KIND_SESSION, session, None)
    case ReadDtc(mask) => Cmd(id, KIND_READDTC, mask, None)
    case ClearDtc => Cmd(id, KIND_CLEARDTC, 0, None)
    case Security(level) => Cmd(id, KIND_SECURITY, level, None)
    case TpStart => Cmd(id, KIND_TP_START, 0, None)
    case TpStop => Cmd(id, KIND_TP_STOP, 0, None)
    case Raw(data) => Cmd(id, KIND_RAW, 0, Some(data))
  }

  function CommandOf(id: nat, r: DartRequest): Command {
    match r
    case Session(session) => Command(id, SESSION, [DartCodec.Hex2(session)], None)
    case ReadDtc(mask) => Command(id, READDTC, [DartCodec.Hex2(mask)], None)
    case ClearDtc => Command(id, CLEARDTC, [], None)
    case Security(level) => Command(id, SECURITY, [DartCodec.Hex2(level)], None)
    case TpStart => Command(id, TP, ["START"], None)
    case TpStop => Command(id, TP, ["STOP"], None)
    case Raw(data) => Command(id, RAW, HexTokens(data), Some(data))
  }

  /** A line with the tokens of a well-formed command is executed as that command. */
  lemma DispatchTokens(line: string, c: Command, tool: string)
    requires |line| <= MAX_LINE && WellFormedCommand(c)
    requires Split(line) == [Dec(c.id), Name(c.verb)] + c.args
    ensures Dispatch(line, tool) == Execute(c, tool)
  {
    hide Execute, ParseCommand, Strip, Split, Dec, Join, Upper, DecodeTokens;
    SplitStrip(line);
    CommandOfTokens(Strip(line), c);
    VerbOfName(c.verb);
    assert Split(line)[1] == Name(c.verb);
  }

  lemma PrintedIsJoin(id: nat, r: DartRequest)
    requires r.Raw? ==> r.data != []
    ensures var c := CommandOf(id, r);
            Printed(id, r) == Join([Dec(id), Name(c.verb)] + c.args)
  {
    var c := CommandOf(id, r);
    JoinTwo(Dec(id), Name(c.verb), c.args);
  }

  lemma CommandOfIsWellFormed(id: nat, r: DartRequest)
    requires r.Raw? ==> r.data != []
    ensures WellFormedCommand(CommandOf(id, r))
  {
    match r
    case Session(b) => ParseHexPad(b, 2);
    case ReadDtc(b) => ParseHexPad(b, 2);
    case Security(b) => ParseHexPad(b, 2);
    case Raw(data) => HexTokensAreTokens(data); DecodeEncodedTokens(data);
    case _ =>
  }

  lemma ExecuteIntends(id: nat, r: DartRequest, tool: string)
    requires r.Raw? ==> r.data != []
    ensures Execute(CommandOf(id, r), tool) == Queued(Intended(id, r))
  {
    hide HexPad, ParseInt, Upper;
    UpperIsIdentity("START");
    UpperIsIdentity("STOP");
    match r
    case Session(b) => ParseHexPad(b, 2);
    case ReadDtc(b) => ParseHexPad(b, 2);
    case Security(b) => ParseHexPad(b, 2);
    case _ =>
  }

  /** Every request the Dart client prints within the limit is queued exactly as intended. */
  lemma DartCommandsAreQueued(id: nat, r: DartRequest, tool: string)
    requires r.Raw? ==> r.data != []
    requires |Printed(id, r)| <= MAX_LINE
    ensures Dispatch(Printed(id, r), tool) == Queued(Intended(id, r))
    ensures WellFormedCmd(Intended(id, r))
  {
    var c := CommandOf(id, r);
    var ts := [Dec(id), Name(c.verb)] + c.args;
    PrintedIsJoin(id, r);
    CommandOfIsWellFormed(id, r);
    ParseDec(id);
    SplitJoin(ts);
    DispatchTokens(Printed(id, r), c, tool);
    ExecuteIntends(id, r, tool);
  }

  lemma NoTokens()
    ensures DecodeTokens([]) == Some([])
  {
    var tokens: seq<string> := [];
    assert DecodeTokens(tokens).Some? && DecodeTokens(tokens).value == [];
  }

  /** A RAW request without bytes is printed without trailing blank, and refused. */
  lemma EmptyRawIsRefused(id: nat, tool: string)
    requires |Dec(id)| + 4 <= MAX_LINE
    ensures |Printed(id, Raw([]))| == |Dec(id)| + 4
    ensures Dispatch(Printed(id, Raw([])), tool) == BadArgs(id)
  {
    hide Dispatch, Split, Dec, BadArgs;
    var c := Command(id, RAW, [], Some([]));
    var ts := [Dec(id), Name(RAW)] + c.args;
    var line := Printed(id, Raw([]));
    ParseDec(id);
    JoinTwo(Dec(id), Name(RAW), []);
    SplitJoin(ts);
    assert line == Join(ts);
    NoTokens();
    DispatchTokens(line, c, tool);
  }
}
