/**
 The `proto=1` line codec of protocol/wire.py: one message a line, `<SEQ> <VERB> [args...]`.
 Printing then parsing is the identity, and parsing sees a line only through its tokens.
 */
module Wire {
  import opened Base
  import opened Text

  const MAX_LINE := 4095
  const PROTO := 1

  /** `ValueErr` is a plain Python `ValueError`, which callers that catch `ProtocolError` let through. */
  datatype WireError = ProtocolError | ValueErr

  datatype Verb =
    | HELLO | SESSION | READDTC | CLEARDTC | SECURITY | TP | RAW | PING | BYE
    | READY | RSP | NRC | OK | ERR | EVT | PONG

  function Name(v: Verb): (s: string)
    ensures IsToken(s) && forall i :: 0 <= i < |s| ==> 'A' <= s[i] <= 'Z'
  {
    match v
    case HELLO => "HELLO"
    case SESSION => "SESSION"
    case READDTC => "READDTC"
    case CLEARDTC => "CLEARDTC"
    case SECURITY => "SECURITY"
    case TP => "TP"
    case RAW => "RAW"
    case PING => "PING"
    case BYE => "BYE"
    case READY => "READY"
    case RSP => "RSP"
    case NRC => "NRC"
    case OK => "OK"
    case ERR => "ERR"
    case EVT => "EVT"
    case PONG => "PONG"
  }

  /** The enum lookup `Verb(s)`. */
  function VerbOf(s: string): Option<Verb> {
    match s
    case "HELLO" => Some(HELLO)
    case "SESSION" => Some(SESSION)
    case "READDTC" => Some(READDTC)
    case "CLEARDTC" => Some(CLEARDTC)
    case "SECURITY" => Some(SECURITY)
    case "TP" => Some(TP)
    case "RAW" => Some(RAW)
    case "PING" => Some(PING)
    case "BYE" => Some(BYE)
    case "READY" => Some(READY)
    case "RSP" => Some(RSP)
    case "NRC" => Some(NRC)
    case "OK" => Some(OK)
    case "ERR" => Some(ERR)
    case "EVT" => Some(EVT)
    case "PONG" => Some(PONG)
    case _ => None
  }

  predicate IsClientVerb(v: Verb) {
    v in {HELLO, SESSION, READDTC, CLEARDTC, SECURITY, TP, RAW, PING, BYE}
  }

  predicate IsServerVerb(v: Verb) {
    v in {READY, RSP, NRC, OK, ERR, EVT, PONG}
  }

  lemma VerbOfName(v: Verb)
    ensures VerbOf(Upper(Name(v))) == Some(v)
  {
    UpperIsIdentity(Name(v));
  }

  // ---------------------------------------------------------------- hexadecimal bytes

  function HexTokens(b: Bytes): (ts: seq<string>) {
    seq(|b|, i requires 0 <= i < |b| => HexPad(b[i], 2))
  }

  function BytesToHex(b: Bytes): string {
    Join(HexTokens(b))
  }

  predicate IsHexByte(t: string) {
    |t| == 2 && AreDigits(t, 16)
  }

  function HexByteValue(t: string): (b: Byte)
    requires IsHexByte(t)
  {
    assert DigitValue(t[0]) < 16 && DigitValue(t[1]) < 16;
    DigitValue(t[0]) * 16 + DigitValue(t[1])
  }

  /** What decoding a token list must give: every token a byte, or no answer at all. */
  function DecodeTokens(ts: seq<string>): Option<Bytes> {
    if forall i :: 0 <= i < |ts| ==> IsHexByte(ts[i])
    then Some(seq(|ts|, i requires 0 <= i < |ts| => HexByteValue(ts[i])))
    else None
  }

  function HexToBytes(s: string): Option<Bytes> {
    DecodeTokens(Split(s))
  }

  /** The decoding loop of both codecs: one token at a time, giving up at the first bad one. */
  method DecodeHexTokens(tokens: seq<string>) returns (r: Option<Bytes>)
    ensures r == DecodeTokens(tokens)
  {
    var out: Bytes := [];
    for k := 0 to |tokens|
      invariant |out| == k
      invariant forall i :: 0 <= i < k ==> IsHexByte(tokens[i]) && out[i] == HexByteValue(tokens[i])
    {
      var tok := tokens[k];
      if |tok| != 2 || DigitValue(tok[0]) >= 16 || DigitValue(tok[1]) >= 16 {
        return None;
      }
      out := out + [HexByteValue(tok)];
    }
    assert out == DecodeTokens(tokens).value;
    return Some(out);
  }

  lemma HexTokensAreTokens(b: Bytes)
    ensures AreTokens(HexTokens(b))
    ensures forall i :: 0 <= i < |b| ==> |HexTokens(b)[i]| == 2
  {
    forall i | 0 <= i < |b|
      ensures IsToken(HexTokens(b)[i]) && |HexTokens(b)[i]| == 2
    {
      ParseHexPad(b[i], 2);
      HexPadByte(b[i]);
    }
  }

  /** Decoding undoes encoding, token by token. */
  lemma DecodeEncodedTokens(b: Bytes)
    ensures DecodeTokens(HexTokens(b)) == Some(b)
  {
    var ts := HexTokens(b);
    forall i | 0 <= i < |b|
      ensures IsHexByte(ts[i]) && HexByteValue(ts[i]) == b[i]
    {
      HexPadByte(b[i]);
      ParseHexPad(b[i], 2);
    }
    assert DecodeTokens(ts).value == b;
  }

  /** The byte codec loses nothing. */
  lemma HexRoundTrip(b: Bytes)
    ensures HexToBytes(BytesToHex(b)) == Some(b)
  {
    HexTokensAreTokens(b);
    SplitJoin(HexTokens(b));
    DecodeEncodedTokens(b);
  }

  // ---------------------------------------------------------------- messages

  /** A client line. `args` are the raw tokens; `data` is the payload of RAW. */
  datatype Command = Command(id: int, verb: Verb, args: seq<string>, data: Option<Bytes>)

  /** A server line, with the fields its verb uses. */
  datatype Response =
    | ReadyLine(id: int, proto: int, tool: string, transport: string)
    | RspLine(id: int, data: Bytes)
    | NrcLine(id: int, sid: int, nrc: int)
    | OkTpLine(id: int)
    | OkSecLine(id: int, level: int)
    | ErrLine(id: int, code: int, text: string)
    | EvtLine(id: int, name: string, args: seq<string>)
    | PongLine(id: int)

  /** `f"{n:02X}"`: the sign counts as a column. */
  function Hex02(n: int): string {
    if n < 0 then "-" + Digits(-n, 16) else HexPad(n, 2)
  }

  function Limit(line: string): Result<string, WireError> {
    if |line| > MAX_LINE then Err(ProtocolError) else Ok(line)
  }

  function CommandBody(c: Command): string {
    Join([Dec(c.id), Name(c.verb)] + c.args)
  }

  function EncodeCommand(c: Command): Result<string, WireError> {
    Limit(CommandBody(c) + "\n")
  }

  /** `<id> <VERB>`, the start of every server line. */
  function Head(id: int, v: Verb): string {
    Dec(id) + " " + Name(v)
  }

  function Pair(key: string, val: string): string {
    key + "=" + val
  }

  function Body(r: Response): string {
    match r
    case ReadyLine(id, proto, tool, transport) =>
      Head(id, READY) + " "
      + (Pair("proto", Dec(proto)) + " " + Pair("tool", tool) + " " + Pair("transport", transport))
    case RspLine(id, data) => Head(id, RSP) + " " + BytesToHex(data)
    case NrcLine(id, sid, nrc) => Head(id, NRC) + " " + (Hex02(sid) + " " + Hex02(nrc))
    case OkTpLine(id) => Head(id, OK) + " " + "TP"
    case OkSecLine(id, level) => Head(id, OK) + " " + ("SEC" + " " + Hex02(level))
    case ErrLine(id, code, text) => Head(id, ERR) + " " + (Dec(code) + " " + text)
    case EvtLine(id, name, args) => Join([Dec(id), Name(EVT), name] + args)
    case PongLine(id) => Head(id, PONG)
  }

  function Encode(r: Response): Result<string, WireError> {
    Limit(Body(r) + "\n")
  }

  // ---------------------------------------------------------------- parsing

  function ParseSeq(tok: string): Option<nat> {
    match ParseInt(tok, 10)
    case None => None
    case Some(n) => if n < 0 then None else Some(n)
  }

  /** `_split_line`: `(id, verb token, other tokens)`. */
  function SplitLine(line: string): Result<(Option<nat>, string, seq<string>), WireError> {
    if |line| > MAX_LINE then Err(ProtocolError)
    else
      var tokens := Split(StripNewlines(line));
      if |tokens| < 2 then Err(ProtocolError)
      else Ok((ParseSeq(tokens[0]), tokens[1], tokens[2..]))
  }

  function ParseCommand(line: string): Result<Command, WireError> {
    match SplitLine(line)
    case Err(e) => Err(e)
    case Ok((id, verbTok, rest)) =>
      match (id, VerbOf(Upper(verbTok)))
      case (Some(n), Some(v)) =>
        if !IsClientVerb(v) then Err(ProtocolError)
        else if v == RAW then
          match HexToBytes(Join(rest))
          case None => Err(ProtocolError)
          case Some(data) => Ok(Command(n, v, rest, Some(data)))
        else Ok(Command(n, v, rest, None))
      case _ => Err(ProtocolError)
  }

  function ParseResponse(line: string): Result<Response, WireError> {
    match SplitLine(line)
    case Err(e) => Err(e)
    case Ok((id, verbTok, rest)) =>
      match (id, VerbOf(Upper(verbTok)))
      case (Some(n), Some(v)) => if IsServerVerb(v) then ParseArgs(n, v, rest) else Err(ProtocolError)
      case _ => Err(ProtocolError)
  }

  /** The per-verb grammar of the tokens after `<SEQ> <VERB>`. */
  function ParseArgs(id: nat, v: Verb, rest: seq<string>): Result<Response, WireError>
    requires IsServerVerb(v)
  {
    match v
    case READY => ParseReady(id, rest)
    case RSP =>
      (match HexToBytes(Join(rest))
       case None => Err(ProtocolError)
       case Some(data) => Ok(RspLine(id, data)))
    case NRC =>
      if |rest| != 2 then Err(ProtocolError)
      else
        (match (ParseInt(rest[0], 16), ParseInt(rest[1], 16))
         case (Some(sid), Some(nrc)) => Ok(NrcLine(id, sid, nrc))
         case _ => Err(ProtocolError))
    case OK =>
      if rest == [] then Err(ProtocolError)
      else if Upper(rest[0]) == "TP" then
        if |rest| != 1 then Err(ProtocolError) else Ok(OkTpLine(id))
      else if Upper(rest[0]) == "SEC" then
        if |rest| != 2 then Err(ProtocolError)
        else
          (match ParseInt(rest[1], 16)
           case None => Err(ProtocolError)
           case Some(level) => Ok(OkSecLine(id, level)))
      else Err(ProtocolError)
    case ERR =>
      if |rest| < 2 then Err(ProtocolError)
      else
        (match ParseInt(rest[0], 10)
         case None => Err(ProtocolError)
         case Some(code) => Ok(ErrLine(id, code, Join(rest[1..]))))
    case EVT =>
      if rest == [] then Err(ProtocolError) else Ok(EvtLine(id, rest[0], rest[1..]))
    case PONG =>
      if rest != [] then Err(ProtocolError) else Ok(PongLine(id))
  }

  /** The key/value pairs of a READY line; a later token overrides an earlier one. */
  function ReadyFields(rest: seq<string>): Option<map<string, string>> {
    if rest == [] then Some(map[])
    else
      var tok := rest[|rest| - 1];
      match (ReadyFields(rest[..|rest| - 1]), IndexOf(tok, '='))
      case (Some(kv), Some(k)) => Some(kv[tok[..k] := tok[k + 1..]])
      case _ => None
  }

  function ParseReady(id: nat, rest: seq<string>): Result<Response, WireError> {
    match ReadyFields(rest)
    case None => Err(ProtocolError)
    case Some(kv) =>
      if "proto" !in kv then Err(ProtocolError)
      else
        match ParseInt(kv["proto"], 10)
        case None => Err(ValueErr)
        case Some(proto) =>
          if "tool" !in kv || "transport" !in kv then Err(ProtocolError)
          else if kv["transport"] != "A" && kv["transport"] != "B" then Err(ProtocolError)
          else Ok(ReadyLine(id, proto, kv["tool"], kv["transport"]))
  }

  /** The READY loop: fill a dictionary, stop at the first token without `=`. */
  method FillReadyFields(rest: seq<string>) returns (r: Option<map<string, string>>)
    ensures r == ReadyFields(rest)
  {
    var kv: map<string, string> := map[];
    for k := 0 to |rest|
      invariant ReadyFields(rest[..k]) == Some(kv)
    {
      assert rest[..k + 1][..k] == rest[..k];
      var eq := IndexOf(rest[k], '=');
      if eq.None? {
        NoReadyFields(rest, k + 1);
        return None;
      }
      kv := kv[rest[k][..eq.value] := rest[k][eq.value + 1..]];
    }
    assert rest[..|rest|] == rest;
    return Some(kv);
  }

  lemma {:induction false} NoReadyFields(rest: seq<string>, k: nat)
    requires k <= |rest| && ReadyFields(rest[..k]).None?
    ensures ReadyFields(rest).None?
    decreases |rest| - k
  {
    if k == |rest| {
      assert rest[..k] == rest;
    } else {
      assert rest[..k + 1][..k] == rest[..k];
      NoReadyFields(rest, k + 1);
    }
  }

  // ---------------------------------------------------------------- printing, as tokens

  function VerbOfResponse(r: Response): (v: Verb)
    ensures IsServerVerb(v)
  {
    match r
    case ReadyLine(_, _, _, _) => READY
    case RspLine(_, _) => RSP
    case NrcLine(_, _, _) => NRC
    case OkTpLine(_) => OK
    case OkSecLine(_, _) => OK
    case ErrLine(_, _, _) => ERR
    case EvtLine(_, _, _) => EVT
    case PongLine(_) => PONG
  }

  function ArgTokens(r: Response): seq<string> {
    match r
    case ReadyLine(_, proto, tool, transport) =>
      [Pair("proto", Dec(proto)), Pair("tool", tool), Pair("transport", transport)]
    case RspLine(_, data) => HexTokens(data)
    case NrcLine(_, sid, nrc) => [Hex02(sid), Hex02(nrc)]
    case OkTpLine(_) => ["TP"]
    case OkSecLine(_, level) => ["SEC", Hex02(level)]
    case ErrLine(_, code, text) => [Dec(code)] + Split(text)
    case EvtLine(_, name, args) => [name] + args
    case PongLine(_) => []
  }

  function LineTokens(r: Response): seq<string> {
    [Dec(r.id), Name(VerbOfResponse(r))] + ArgTokens(r)
  }

  /** What a response must satisfy to survive the trip: no separators inside its fields. */
  predicate WellFormed(r: Response) {
    && r.id >= 0
    && match r
       case ReadyLine(_, _, tool, transport) => NoSpaces(tool) && (transport == "A" || transport == "B")
       case ErrLine(_, _, text) => Split(text) != [] && text == Join(Split(text))
       case EvtLine(_, name, args) => IsToken(name) && AreTokens(args)
       case _ => true
  }

  predicate NoSpaces(s: string) {
    forall i :: 0 <= i < |s| ==> !IsSpace(s[i])
  }

  predicate WellFormedCommand(c: Command) {
    && c.id >= 0
    && IsClientVerb(c.verb)
    && AreTokens(c.args)
    && c.data == (if c.verb == RAW then DecodeTokens(c.args) else None)
    && (c.verb == RAW ==> c.data.Some?)
  }

  lemma ParseNegativeHex(n: nat)
    ensures ParseInt("-" + Digits(n, 16), 16) == Some(0 - n)
    ensures IsToken("-" + Digits(n, 16))
  {
    hide Digits, ParseInt, IsToken, AreDigits, ValueOf;
    DigitsAreDigits(n, 16);
    ParseSigned(Digits(n, 16), 16);
  }

  lemma ParseHex02(n: int)
    ensures ParseInt(Hex02(n), 16) == Some(n)
    ensures IsToken(Hex02(n))
  {
    hide HexPad, Digits, ParseInt, IsToken, AreDigits, ValueOf;
    if n < 0 {
      ParseNegativeHex(-n);
    } else {
      ParseHexPad(n, 2);
    }
  }

  lemma PairIsToken(key: string, val: string)
    requires NoSpaces(key) && NoSpaces(val)
    ensures IsToken(Pair(key, val))
  {}

  lemma ReadyTokensAreTokens(r: Response)
    requires r.ReadyLine? && WellFormed(r)
    ensures AreTokens(ArgTokens(r))
  {
    ParseDec(r.proto);
    PairIsToken("proto", Dec(r.proto));
    PairIsToken("tool", r.tool);
    PairIsToken("transport", r.transport);
  }

  lemma ArgTokensAreTokens(r: Response)
    requires WellFormed(r)
    ensures AreTokens(ArgTokens(r))
  {
    match r
    case ReadyLine(_, _, _, _) => ReadyTokensAreTokens(r);
    case RspLine(_, data) => HexTokensAreTokens(data);
    case NrcLine(_, sid, nrc) => ParseHex02(sid); ParseHex02(nrc);
    case OkTpLine(_) =>
    case OkSecLine(_, level) => ParseHex02(level);
    case ErrLine(_, code, text) => ParseDec(code);
    case EvtLine(_, name, args) =>
    case PongLine(_) =>
  }

  lemma LineTokensAreTokens(r: Response)
    requires WellFormed(r)
    ensures AreTokens(LineTokens(r))
  {
    ParseDec(r.id);
    ArgTokensAreTokens(r);
  }

  lemma JoinCons(t: string, ts: seq<string>)
    requires ts != []
    ensures Join([t] + ts) == t + " " + Join(ts)
  {
    assert ([t] + ts)[1..] == ts;
  }

  lemma JoinTwo(a: string, b: string, ts: seq<string>)
    ensures Join([a, b] + ts) == if ts == [] then a + " " + b else a + " " + b + " " + Join(ts)
  {
    JoinCons(a, [b] + ts);
    assert [a] + ([b] + ts) == [a, b] + ts;
    if ts != [] {
      JoinCons(b, ts);
    } else {
      assert [b] + ts == [b];
    }
  }

  lemma ReadyBodyIsJoin(r: Response)
    requires r.ReadyLine?
    ensures Body(r) == Head(r.id, READY) + " " + Join(ArgTokens(r))
  {
    var p, t, x := Pair("proto", Dec(r.proto)), Pair("tool", r.tool), Pair("transport", r.transport);
    JoinTwo(p, t, [x]);
    assert [p, t] + [x] == ArgTokens(r);
  }

  /** A printed response is its tokens separated by single spaces (an empty RSP leaves one behind). */
  lemma BodyIsJoin(r: Response)
    requires WellFormed(r)
    ensures Body(r) == Join(LineTokens(r)) + if r.RspLine? && r.data == [] then " " else ""
  {
    JoinTwo(Dec(r.id), Name(VerbOfResponse(r)), ArgTokens(r));
    match r
    case ReadyLine(_, _, _, _) => ReadyBodyIsJoin(r);
    case RspLine(_, data) =>
    case NrcLine(_, sid, nrc) =>
      JoinCons(Hex02(sid), [Hex02(nrc)]);
      assert [Hex02(sid)] + [Hex02(nrc)] == ArgTokens(r);
    case OkTpLine(_) =>
    case OkSecLine(_, level) =>
      JoinCons("SEC", [Hex02(level)]);
      assert ["SEC"] + [Hex02(level)] == ArgTokens(r);
    case ErrLine(_, code, text) =>
      JoinCons(Dec(code), Split(text));
    case EvtLine(_, name, args) =>
      assert [Dec(r.id), Name(EVT), name] + args == LineTokens(r);
    case PongLine(_) =>
  }

  lemma SplitBody(r: Response)
    requires WellFormed(r)
    ensures Split(Body(r)) == Split(Body(r) + "\n") == LineTokens(r)
  {
    LineTokensAreTokens(r);
    BodyIsJoin(r);
    SplitJoin(LineTokens(r));
    if r.RspLine? && r.data == [] {
      SplitTrailingSpace(Join(LineTokens(r)), ' ');
    } else {
      assert Join(LineTokens(r)) + "" == Join(LineTokens(r));
    }
    SplitTrailingSpace(Body(r), '\n');
  }

  // ---------------------------------------------------------------- round trips

  lemma SplitLineOfTokens(line: string, id: nat, v: Verb, rest: seq<string>)
    requires |line| <= MAX_LINE
    requires Split(line) == [Dec(id), Name(v)] + rest
    ensures SplitLine(line) == Ok((Some(id), Name(v), rest))
    ensures VerbOf(Upper(Name(v))) == Some(v)
  {
    SplitStripNewlines(line);
    ParseDec(id);
    VerbOfName(v);
    assert ([Dec(id), Name(v)] + rest)[2..] == rest;
  }

  lemma IndexOfSeparator(key: string, val: string)
    requires '=' !in key
    ensures IndexOf(Pair(key, val), '=') == Some(|key|)
  {
    var s := Pair(key, val);
    assert s[|key|] == '=';
    assert forall j :: 0 <= j < |key| ==> s[j] == key[j];
  }

  lemma ReadyFieldsSnoc(rest: seq<string>, kv: map<string, string>, key: string, val: string)
    requires ReadyFields(rest) == Some(kv) && '=' !in key
    ensures ReadyFields(rest + [Pair(key, val)]) == Some(kv[key := val])
  {
    var tok := Pair(key, val);
    IndexOfSeparator(key, val);
    assert (rest + [tok])[..|rest|] == rest;
    assert tok[..|key|] == key && tok[|key| + 1..] == val;
  }

  lemma ReadyFieldsOfTokens(proto: string, tool: string, transport: string)
    ensures ReadyFields([Pair("proto", proto), Pair("tool", tool), Pair("transport", transport)])
         == Some(map["proto" := proto]["tool" := tool]["transport" := transport])
  {
    var p, t, x := Pair("proto", proto), Pair("tool", tool), Pair("transport", transport);
    var kv := map["proto" := proto];
    assert kv == map[]["proto" := proto];
    ReadyFieldsSnoc([], map[], "proto", proto);
    assert [] + [p] == [p];
    ReadyFieldsSnoc([p], kv, "tool", tool);
    assert [p] + [t] == [p, t];
    ReadyFieldsSnoc([p, t], kv["tool" := tool], "transport", transport);
    assert [p, t] + [x] == [p, t, x];
  }

  lemma ParseReadyTokens(r: Response)
    requires r.ReadyLine? && WellFormed(r)
    ensures ParseReady(r.id, ArgTokens(r)) == Ok(r)
  {
    ReadyFieldsOfTokens(Dec(r.proto), r.tool, r.transport);
    ParseDec(r.proto);
  }

  lemma ParseNrcTokens(r: Response)
    requires r.NrcLine? && WellFormed(r)
    ensures ParseArgs(r.id, NRC, ArgTokens(r)) == Ok(r)
  {
    ParseHex02(r.sid);
    ParseHex02(r.nrc);
  }

  lemma ParseErrTokens(r: Response)
    requires r.ErrLine? && WellFormed(r)
    ensures ParseArgs(r.id, ERR, ArgTokens(r)) == Ok(r)
  {
    ParseDec(r.code);
    assert ArgTokens(r)[1..] == Split(r.text);
  }

  lemma ParseOkTokens(r: Response)
    requires r.OkTpLine? || r.OkSecLine?
    requires WellFormed(r)
    ensures ParseArgs(r.id, OK, ArgTokens(r)) == Ok(r)
  {
    UpperIsIdentity("TP");
    UpperIsIdentity("SEC");
    if r.OkSecLine? {
      ParseHex02(r.level);
    }
  }

  lemma ParseArgTokens(r: Response)
    requires WellFormed(r)
    ensures ParseArgs(r.id, VerbOfResponse(r), ArgTokens(r)) == Ok(r)
  {
    match r
    case ReadyLine(_, _, _, _) => ParseReadyTokens(r);
    case RspLine(_, data) => HexRoundTrip(data);
    case NrcLine(_, _, _) => ParseNrcTokens(r);
    case OkTpLine(_) => ParseOkTokens(r);
    case OkSecLine(_, _) => ParseOkTokens(r);
    case ErrLine(_, _, _) => ParseErrTokens(r);
    case EvtLine(_, name, args) =>
      assert ArgTokens(r)[1..] == args;
    case PongLine(_) =>
  }

  lemma {:induction false} JoinHasNoNewline(ts: seq<string>)
    requires AreTokens(ts)
    ensures '\n' !in Join(ts)
    decreases |ts|
  {
    if ts != [] {
      assert IsToken(ts[0]);
      if |ts| > 1 {
        JoinHasNoNewline(ts[1..]);
      }
    }
  }

  /**
   Every well-formed response whose line fits is read back unchanged, with or without its newline,
   and the line holds exactly one newline: its last character.
   */
  lemma ResponseRoundTrip(r: Response)
    requires WellFormed(r) && Encode(r).Ok?
    ensures var line := Encode(r).value;
            && ParseResponse(line) == Ok(r)
            && ParseResponse(line[..|line| - 1]) == Ok(r)
            && line[|line| - 1] == '\n'
            && '\n' !in line[..|line| - 1]
  {
    var line := Encode(r).value;
    var v := VerbOfResponse(r);
    assert line[..|line| - 1] == Body(r);
    SplitBody(r);
    SplitLineOfTokens(line, r.id, v, ArgTokens(r));
    SplitLineOfTokens(Body(r), r.id, v, ArgTokens(r));
    ParseArgTokens(r);
    LineTokensAreTokens(r);
    BodyIsJoin(r);
    JoinHasNoNewline(LineTokens(r));
  }

  lemma {:induction false} FieldsHaveNoSpaces(rest: seq<string>)
    requires AreTokens(rest) && ReadyFields(rest).Some?
    ensures forall key :: key in ReadyFields(rest).value ==> NoSpaces(ReadyFields(rest).value[key])
    decreases |rest|
  {
    if rest != [] {
      var tok := rest[|rest| - 1];
      FieldsHaveNoSpaces(rest[..|rest| - 1]);
      assert IsToken(tok);
    }
  }

  lemma ParsedArgs(id: nat, v: Verb, rest: seq<string>)
    requires IsServerVerb(v) && AreTokens(rest) && ParseArgs(id, v, rest).Ok?
    ensures var r := ParseArgs(id, v, rest).value;
            && WellFormed(r) && r.id == id && VerbOfResponse(r) == v
            && (v != READY ==> |ArgTokens(r)| == |rest|)
  {
    hide IsSpace, ParseInt, Upper, Split, Join, HexPad, Digits;
    SplitJoin(rest);
    if v == READY {
      FieldsHaveNoSpaces(rest);
    } else if v == ERR {
      SplitJoin(rest[1..]);
    }
  }

  /** An accepted response is well formed, and apart from READY no token of its line is ignored. */
  lemma ParsedResponseIsWellFormed(line: string)
    requires ParseResponse(line).Ok?
    ensures var r := ParseResponse(line).value;
            && WellFormed(r)
            && (!r.ReadyLine? ==> |LineTokens(r)| == |Split(line)|)
  {
    hide ParseArgs, WellFormed, ArgTokens, Split, ParseInt, Upper, StripNewlines;
    SplitStripNewlines(line);
    var tokens := Split(line);
    ParsedArgs(ParseSeq(tokens[0]).value, VerbOf(Upper(tokens[1])).value, tokens[2..]);
  }

  /** Printing an accepted response again and parsing it gives the same response whenever it fits. */
  lemma ResponseNormalisation(line: string)
    requires ParseResponse(line).Ok? && Encode(ParseResponse(line).value).Ok?
    ensures ParseResponse(Encode(ParseResponse(line).value).value) == ParseResponse(line)
  {
    hide ParseResponse, Encode, WellFormed;
    ParsedResponseIsWellFormed(line);
    ResponseRoundTrip(ParseResponse(line).value);
  }

  /** An accepted command is well formed, and its tokens are those of the line. */
  lemma ParsedCommandIsWellFormed(line: string)
    requires ParseCommand(line).Ok?
    ensures WellFormedCommand(ParseCommand(line).value)
  {
    var rest := SplitLine(line).value.2;
    SplitJoin(rest);
  }

  /** Any line with the tokens of a well-formed command is read as that command. */
  lemma CommandOfTokens(line: string, c: Command)
    requires |line| <= MAX_LINE && WellFormedCommand(c)
    requires Split(line) == [Dec(c.id), Name(c.verb)] + c.args
    ensures ParseCommand(line) == Ok(c)
  {
    SplitLineOfTokens(line, c.id, c.verb, c.args);
    SplitJoin(c.args);
  }

  /** Every well-formed command whose line fits is read back unchanged. */
  lemma CommandRoundTrip(c: Command)
    requires WellFormedCommand(c) && EncodeCommand(c).Ok?
    ensures var line := EncodeCommand(c).value;
            && ParseCommand(line) == Ok(c)
            && line[|line| - 1] == '\n'
            && '\n' !in line[..|line| - 1]
  {
    var line := EncodeCommand(c).value;
    var ts := [Dec(c.id), Name(c.verb)] + c.args;
    ParseDec(c.id);
    SplitJoin(ts);
    SplitTrailingSpace(Join(ts), '\n');
    CommandOfTokens(line, c);
    assert line[..|line| - 1] == Join(ts);
    JoinHasNoNewline(ts);
  }

  /** Printing an accepted command again and parsing it gives the same command whenever it fits. */
  lemma CommandNormalisation(line: string)
    requires ParseCommand(line).Ok? && EncodeCommand(ParseCommand(line).value).Ok?
    ensures ParseCommand(EncodeCommand(ParseCommand(line).value).value) == ParseCommand(line)
  {
    ParsedCommandIsWellFormed(line);
    CommandRoundTrip(ParseCommand(line).value);
  }

  /** Lines within the limit are told apart only by their tokens: spacing carries no meaning. */
  lemma SpacingIsIgnored(a: string, b: string)
    requires |a| <= MAX_LINE && |b| <= MAX_LINE && Split(a) == Split(b)
    ensures ParseCommand(a) == ParseCommand(b)
    ensures ParseResponse(a) == ParseResponse(b)
  {
    hide Split, StripNewlines, ParseInt, ParseArgs, HexToBytes, VerbOf;
    SplitStripNewlines(a);
    SplitStripNewlines(b);
  }

  /** The line is accepted up to a READY whose `proto` is there but is no decimal integer. */
  predicate HasBadProto(line: string) {
    var tokens := Split(line);
    && |line| <= MAX_LINE && |tokens| >= 2
    && ParseSeq(tokens[0]).Some? && VerbOf(Upper(tokens[1])) == Some(READY)
    && var kv := ReadyFields(tokens[2..]);
       kv.Some? && "proto" in kv.value && ParseInt(kv.value["proto"], 10).None?
  }

  /**
   `parse_response` promises `ProtocolError` on malformed input. It raises a plain `ValueError` instead
   exactly on a READY whose `proto` is no integer, even when other fields are missing; never a command.
   */
  lemma PlainValueErrorIff(line: string)
    ensures ParseResponse(line) == Err(ValueErr) <==> HasBadProto(line)
    ensures ParseCommand(line) != Err(ValueErr)
  {
    hide Split, StripNewlines, ParseInt, Upper, ReadyFields, HexToBytes;
    SplitStripNewlines(line);
  }

  lemma BadProtoLine(id: nat, val: string)
    requires NoSpaces(val) && ParseInt(val, 10).None? && |Dec(id)| + |val| + 13 <= MAX_LINE
    ensures ParseResponse(Head(id, READY) + " " + Pair("proto", val)) == Err(ValueErr)
  {
    hide Split, StripNewlines, ParseInt, Dec, ReadyFields, Join;
    var tok := Pair("proto", val);
    var tokens := [Dec(id), "READY"] + [tok];
    var line := Head(id, READY) + " " + tok;
    ParseDec(id);
    PairIsToken("proto", val);
    assert AreTokens(tokens);
    JoinTwo(Dec(id), "READY", [tok]);
    JoinOne(tok);
    SplitJoin(tokens);
    assert line == Join(tokens);
    SplitLineOfTokens(line, id, READY, [tok]);
    OneReadyField("proto", val);
  }

  lemma JoinOne(t: string)
    ensures Join([t]) == t
  {}

  lemma OneReadyField(key: string, val: string)
    requires '=' !in key
    ensures ReadyFields([Pair(key, val)]) == Some(map[key := val])
  {
    ReadyFieldsSnoc([], map[], key, val);
    assert [] + [Pair(key, val)] == [Pair(key, val)];
    assert map[][key := val] == map[key := val];
  }

  lemma PlainValueErrorWitness()
    ensures ParseResponse("1 READY proto=x") == Err(ValueErr)
  {
    hide ParseResponse;
    assert Dec(1) == "1" && |"x"| == 1;
    assert DigitValue("x"[0]) == 16;
    BadProtoLine(1, "x");
    assert Head(1, READY) + " " + Pair("proto", "x") == "1 READY proto=x";
  }

  /** No line is both a command and a response. */
  lemma DirectionsAreDisjoint(line: string)
    ensures !(ParseCommand(line).Ok? && ParseResponse(line).Ok?)
  {}

  // ---------------------------------------------------------------- letter case

  lemma UpperHexBytes(ts: seq<string>)
    ensures DecodeTokens(UpperAll(ts)) == DecodeTokens(ts)
  {
    hide UpperChar, DigitValue;
    forall i | 0 <= i < |ts|
      ensures IsHexByte(UpperAll(ts)[i]) <==> IsHexByte(ts[i])
      ensures IsHexByte(ts[i]) ==> HexByteValue(UpperAll(ts)[i]) == HexByteValue(ts[i])
    {
      UpperDigits(ts[i], 16);
      if |ts[i]| == 2 {
        UpperKeepsValue(ts[i][0]);
        UpperKeepsValue(ts[i][1]);
      }
    }
    if DecodeTokens(ts).Some? {
      assert DecodeTokens(UpperAll(ts)).value == DecodeTokens(ts).value;
    }
  }

  lemma ByteOfDigits(t: string)
    requires IsHexByte(t)
    ensures HexPad(HexByteValue(t), 2) == Upper(t)
  {
    var b := HexByteValue(t);
    HexPadByte(b);
    assert b / 16 == DigitValue(t[0]) && b % 16 == DigitValue(t[1]);
    DigitOfChar(t[0]);
    DigitOfChar(t[1]);
  }

  lemma DigitOfChar(c: char)
    requires DigitValue(c) < 16
    ensures DigitChar(DigitValue(c)) == UpperChar(c)
  {}

  /** Tokens decode to `b` exactly when in upper case they are what `b` is printed as. */
  lemma DecodeIff(ts: seq<string>, b: Bytes)
    ensures DecodeTokens(ts) == Some(b) <==> UpperAll(ts) == HexTokens(b)
  {
    if DecodeTokens(ts) == Some(b) {
      forall i | 0 <= i < |ts|
        ensures UpperAll(ts)[i] == HexTokens(b)[i]
      {
        ByteOfDigits(ts[i]);
      }
    }
    if UpperAll(ts) == HexTokens(b) {
      UpperHexBytes(ts);
      DecodeEncodedTokens(b);
    }
  }

  /** The words a server line may start with. */
  lemma ServerWords(word: string)
    ensures VerbOf(word).Some? && IsServerVerb(VerbOf(word).value)
            <==> word in {"READY", "RSP", "NRC", "OK", "ERR", "EVT", "PONG"}
  {}

  /** NRC and OK SEC print their bytes with two digits. */
  lemma ByteFieldsHaveTwoDigits(id: nat, a: Byte, b: Byte)
    ensures |Body(NrcLine(id, a, b))| == |Dec(id)| + 10
    ensures |Body(OkSecLine(id, a))| == |Dec(id)| + 10
  {
    hide Dec, HexPad;
    HexPadByte(a);
    HexPadByte(b);
  }

  /** The command with its arguments in upper case. */
  function Shouted(c: Command): Command {
    Command(c.id, c.verb, UpperAll(c.args), c.data)
  }

  lemma ShoutedParse(a: string, b: string)
    requires |a| <= MAX_LINE && |b| <= MAX_LINE && Split(b) == UpperAll(Split(a))
    ensures ParseCommand(a).Err? <==> ParseCommand(b).Err?
    ensures ParseCommand(a).Ok? ==> ParseCommand(b) == Ok(Shouted(ParseCommand(a).value))
    ensures ParseCommand(a).Err? ==> ParseCommand(b) == ParseCommand(a)
  {
    hide Split, StripNewlines, ParseInt, Upper, DecodeTokens, Join, VerbOf;
    SplitStripNewlines(a);
    SplitStripNewlines(b);
    var ts := Split(a);
    if |ts| >= 2 {
      UpperNumeral(ts[0], 10);
      UpperIsStable(ts[1]);
      assert UpperAll(ts)[2..] == UpperAll(ts[2..]);
      UpperKeepsTokens(ts[2..]);
      UpperHexBytes(ts[2..]);
      SplitJoin(ts[2..]);
      SplitJoin(UpperAll(ts[2..]));
    }
  }

  /** The verbs whose arguments are words and numerals, not free text. */
  predicate IsCaseless(word: string) {
    word == "RSP" || word == "NRC" || word == "OK" || word == "PONG"
  }

  lemma ShoutedArgs(id: nat, v: Verb, rest: seq<string>)
    requires v == RSP || v == NRC || v == OK || v == PONG
    requires AreTokens(rest)
    ensures ParseArgs(id, v, UpperAll(rest)) == ParseArgs(id, v, rest)
  {
    hide Split, Join, ParseInt, Upper, DecodeTokens;
    UpperKeepsTokens(rest);
    UpperHexBytes(rest);
    SplitJoin(rest);
    SplitJoin(UpperAll(rest));
    if rest != [] {
      UpperIsStable(rest[0]);
      UpperNumeral(rest[0], 16);
      if |rest| == 2 {
        UpperNumeral(rest[1], 16);
      }
    }
  }

  lemma CaselessVerb(word: string)
    requires IsCaseless(word)
    ensures var v := VerbOf(word); v == Some(RSP) || v == Some(NRC) || v == Some(OK) || v == Some(PONG)
  {}

  /** Nor does letter case matter in answers made of words and numerals. */
  lemma ResponseCaseIsIgnored(a: string, b: string)
    requires |a| <= MAX_LINE && |b| <= MAX_LINE && Split(b) == UpperAll(Split(a))
    requires |Split(a)| >= 2 && IsCaseless(Upper(Split(a)[1]))
    ensures ParseResponse(b) == ParseResponse(a)
  {
    hide Split, StripNewlines, ParseInt, Upper, ParseArgs, VerbOf, IsCaseless;
    SplitStripNewlines(a);
    SplitStripNewlines(b);
    var ts := Split(a);
    UpperNumeral(ts[0], 10);
    UpperIsStable(ts[1]);
    CaselessVerb(Upper(ts[1]));
    assert UpperAll(ts)[2..] == UpperAll(ts[2..]);
    if ParseSeq(ts[0]).Some? {
      ShoutedArgs(ParseSeq(ts[0]).value, VerbOf(Upper(ts[1])).value, ts[2..]);
    }
  }

  // ---------------------------------------------------------------- sequence numbers

  /** `SeqAllocator`: ids from 1 upwards; 0 is left to unsolicited lines. */
  class SeqAllocator {
    var next: nat

    ghost predicate Valid()
      reads this
    {
      next >= 1
    }

    constructor ()
      ensures Valid() && next == 1
    {
      next := 1;
    }

    method Next() returns (id: nat)
      requires Valid()
      modifies this
      ensures Valid()
      ensures id == old(next) && next == id + 1 && id != 0
    {
      id := next;
      next := next + 1;
    }
  }
}
