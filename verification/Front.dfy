/**
 The line dispatcher of bridge/flexdiag_bridge.py: every client line is ignored, closes the
 connection, is answered at once, or queues one command.
 */
module Front {
  import opened Base
  import opened Text
  import opened Wire
  import opened Bridge

  /** `Failed` is an exception that leaves `_dispatch_line`: a reply too long to encode. */
  datatype Action =
    | Ignored
    | Close
    | Sent(text: string)
    | Queued(cmd: Cmd)
    | Failed

  function Send(r: Response): Action {
    match Encode(r)
    case Ok(text) => Sent(text)
    case Err(_) => Failed
  }

  function BadArgs(id: int): Action { Send(ErrLine(id, 422, "bad_args")) }

  function UnknownVerb(id: int): Action { Send(ErrLine(id, 400, "unknown_verb")) }

  /** The id a reply echoes: 0 when the first token is no natural number. */
  function ReplyId(tokens: seq<string>): nat {
    if tokens == [] then 0
    else
      match ParseSeq(tokens[0])
      case Some(n) => n
      case None => 0
  }

  /** A hexadecimal argument in 0..FF. */
  function HexArg(tok: string): Option<Byte> {
    match ParseInt(tok, 16)
    case Some(n) => if 0 <= n <= 0xFF then Some(n) else None
    case None => None
  }

  /** `_dispatch_line`. */
  function Dispatch(line: string, tool: string): Action {
    var stripped := Strip(line);
    if stripped == "" then Ignored
    else
      var tokens := Split(stripped);
      if |tokens| >= 2 && !IsClientWord(tokens[1]) then UnknownVerb(ReplyId(tokens))
      else
        match ParseCommand(stripped)
        case Err(_) => BadArgs(ReplyId(tokens))
        case Ok(c) => Execute(c, tool)
  }

  predicate IsClientWord(tok: string) {
    match VerbOf(Upper(tok))
    case Some(v) => IsClientVerb(v)
    case None => false
  }

  function Execute(c: Command, tool: string): Action {
    match c.verb
    case HELLO => Send(ReadyLine(c.id, PROTO, tool, "B"))
    case PING => Send(PongLine(c.id))
    case BYE => Close
    case SESSION =>
      if |c.args| != 1 || HexArg(c.args[0]).None? then BadArgs(c.id)
      else Queued(Cmd(c.id, KIND_SESSION, HexArg(c.args[0]).value, None))
    case READDTC =>
      var mask := if c.args == [] then "FF" else c.args[0];
      if |c.args| > 1 || HexArg(mask).None? then BadArgs(c.id)
      else Queued(Cmd(c.id, KIND_READDTC, HexArg(mask).value, None))
    case CLEARDTC =>
      if c.args != [] then BadArgs(c.id) else Queued(Cmd(c.id, KIND_CLEARDTC, 0, None))
    case SECURITY =>
      if |c.args| != 1 || HexArg(c.args[0]).None? then BadArgs(c.id)
      else Queued(Cmd(c.id, KIND_SECURITY, HexArg(c.args[0]).value, None))
    case TP =>
      if |c.args| != 1 || Upper(c.args[0]) !in {"START", "STOP"} then BadArgs(c.id)
      else Queued(Cmd(c.id, if Upper(c.args[0]) == "START" then KIND_TP_START else KIND_TP_STOP, 0, None))
    case RAW =>
      if c.data.None? || c.data.value == [] then BadArgs(c.id)
      else Queued(Cmd(c.id, KIND_RAW, 0, c.data))
    case _ => UnknownVerb(c.id)
  }

  // ---------------------------------------------------------------- the connection

  /** One WebSocket client: the lines sent to it, in front of a shared backend. */
  class Connection {
    const vec: FakeVectorCom
    const tool: string
    var sent: seq<string>

    constructor (vec: FakeVectorCom, tool: string)
      ensures this.vec == vec && this.tool == tool && sent == []
    {
      this.vec, this.tool, sent := vec, tool, [];
    }

    method SendLine(r: Response) returns (raised: bool)
      modifies this`sent
      ensures raised == Encode(r).Err?
      ensures sent == if raised then old(sent) else old(sent) + [Encode(r).value]
    {
      var text := Encode(r);
      if text.Err? {
        return true;
      }
      sent := sent + [text.value];
      return false;
    }

    method Enqueue(c: Cmd)
      modifies vec`cmdQ
      ensures vec.cmdQ == old(vec.cmdQ) + [c]
    {
      vec.cmdQ := vec.cmdQ + [c];
    }

    /**
     The event pump, until the queue is empty or it ends for good: the event that does not encode is
     taken from the queue, and those behind it stay there.
     */
    method PumpEvents() returns (alive: bool)
      modifies this`sent, vec`evtQ
      ensures var events := old(vec.evtQ);
              var lines := Delivered(Lines(events));
              && sent == old(sent) + lines
              && alive == (|lines| == |events|)
              && vec.evtQ == if alive then [] else events[|lines| + 1..]
    {
      hide Delivered, Lines, EncodeResponse;
      ghost var events, k := vec.evtQ, 0;
      NothingToDeliver();
      while vec.evtQ != []
        invariant k <= |events| && vec.evtQ == events[k..]
        invariant sent + Delivered(Lines(events[k..])) == old(sent) + Delivered(Lines(events))
        invariant k + |Delivered(Lines(events[k..]))| == |Delivered(Lines(events))|
        decreases |vec.evtQ|
      {
        var v := vec.evtQ[0];
        EncodeFirst(v, events[k + 1..]);
        assert events[k..] == [v] + events[k + 1..];
        vec.evtQ := vec.evtQ[1..];
        var text := EncodeResponse(v);
        if text.Err? {
          return false;
        }
        sent := sent + [text.value];
        k := k + 1;
      }
      return true;
    }

    method DispatchLine(line: string) returns (close: bool, raised: bool)
      modifies this`sent, vec`cmdQ
      ensures var act := Dispatch(line, tool);
              && close == act.Close? && raised == act.Failed?
              && sent == old(sent) + (if act.Sent? then [act.text] else [])
              && vec.cmdQ == old(vec.cmdQ) + (if act.Queued? then [act.cmd] else [])
    {
      close, raised := false, false;
      var stripped := Strip(line);
      if stripped == "" {
        return;
      }
      var tokens := Split(stripped);
      if |tokens| >= 2 && !IsClientWord(tokens[1]) {
        raised := SendLine(ErrLine(ReplyId(tokens), 400, "unknown_verb"));
        return;
      }
      var parsed := ParseCommand(stripped);
      if parsed.Err? {
        raised := SendLine(ErrLine(ReplyId(tokens), 422, "bad_args"));
        return;
      }
      close, raised := Perform(parsed.value);
    }

    method Perform(c: Command) returns (close: bool, raised: bool)
      modifies this`sent, vec`cmdQ
      ensures var act := Execute(c, tool);
              && close == act.Close? && raised == act.Failed?
              && sent == old(sent) + (if act.Sent? then [act.text] else [])
              && vec.cmdQ == old(vec.cmdQ) + (if act.Queued? then [act.cmd] else [])
    {
      close, raised := false, false;
      match c.verb {
      case HELLO =>
        raised := SendLine(ReadyLine(c.id, PROTO, tool, "B"));
        return;
      case PING =>
        raised := SendLine(PongLine(c.id));
        return;
      case BYE =>
        return true, false;
      case SESSION =>
        if |c.args| == 1 {
          var session := HexArg(c.args[0]);
          if session.Some? {
            Enqueue(Cmd(c.id, KIND_SESSION, session.value, None));
            return;
          }
        }
      case READDTC =>
        if |c.args| <= 1 {
          var mask := HexArg(if c.args == [] then "FF" else c.args[0]);
          if mask.Some? {
            Enqueue(Cmd(c.id, KIND_READDTC, mask.value, None));
            return;
          }
        }
      case CLEARDTC =>
        if c.args == [] {
          Enqueue(Cmd(c.id, KIND_CLEARDTC, 0, None));
          return;
        }
      case SECURITY =>
        if |c.args| == 1 {
          var level := HexArg(c.args[0]);
          if level.Some? {
            Enqueue(Cmd(c.id, KIND_SECURITY, level.value, None));
            return;
          }
        }
      case TP =>
        if |c.args| == 1 && (Upper(c.args[0]) == "START" || Upper(c.args[0]) == "STOP") {
          var kind := if Upper(c.args[0]) == "START" then KIND_TP_START else KIND_TP_STOP;
          Enqueue(Cmd(c.id, kind, 0, None));
          return;
        }
      case RAW =>
        if c.data.Some? && c.data.value != [] {
          Enqueue(Cmd(c.id, KIND_RAW, 0, c.data));
          return;
        }
      case _ =>
        raised := SendLine(ErrLine(c.id, 400, "unknown_verb"));
        return;
      }
      raised := SendLine(ErrLine(c.id, 422, "bad_args"));
    }
  }

  lemma NothingToDeliver()
    ensures Delivered(Lines([])) == []
  {}

  lemma EncodeFirst(v: Evt, rest: seq<Evt>)
    ensures Delivered(Lines([v] + rest))
         == if EncodeResponse(v).Ok? then [EncodeResponse(v).value] + Delivered(Lines(rest)) else []
    ensures |Delivered(Lines([v] + rest))| == 1 + |rest|
            <==> EncodeResponse(v).Ok? && |Delivered(Lines(rest))| == |rest|
  {
    hide EncodeResponse;
    LinesConcat([v], rest);
    assert Lines([v] + rest)[1..] == Lines(rest);
    assert Lines([v] + rest)[0] == EncodeResponse(v);
  }

  // ---------------------------------------------------------------- exactly one reaction

  lemma ReplyIdIsShort(tokens: seq<string>)
    requires AreTokens(tokens) && tokens != []
    ensures |Dec(ReplyId(tokens))| <= |tokens[0]|
  {
    var tok := tokens[0];
    assert |Dec(0)| == 1 <= |tok|;
    if ParseInt(tok, 10).Some? {
      DigitsAreShortest(if tok[0] in "+-" then tok[1..] else tok, 10);
    }
  }

  /** A line is sent that reads back as `r`. */
  predicate Says(act: Action, r: Response) {
    act.Sent? && ParseResponse(act.text) == Ok(r)
  }

  /** The reply `r` is sent if it takes at most a line, and raises otherwise. */
  predicate Replies(act: Action, r: Response, size: nat) {
    (size > MAX_LINE && act.Failed?) || (size <= MAX_LINE && Says(act, r))
  }

  lemma SendReplies(r: Response)
    requires WellFormed(r)
    ensures Replies(Send(r), r, |Body(r)| + 1)
  {
    hide WellFormed, Body, ParseResponse;
    if Encode(r).Ok? {
      ResponseRoundTrip(r);
    }
  }

  lemma ErrorReplies(id: nat, code: nat, text: string)
    requires IsToken(text) && 100 <= code < 1000
    ensures Replies(Send(ErrLine(id, code, text)), ErrLine(id, code, text), |Dec(id)| + 10 + |text|)
  {
    hide Replies, Send, Dec;
    var r := ErrLine(id, code, text);
    SplitToken(text);
    ThreeDigits(code);
    assert |Body(r)| == |Dec(id)| + 4 + 1 + 3 + 1 + |text|;
    SendReplies(r);
  }

  lemma BadArgsReplies(id: nat)
    ensures Replies(BadArgs(id), ErrLine(id, 422, "bad_args"), |Dec(id)| + 18)
  {
    hide Replies, Send, Dec;
    ErrorReplies(id, 422, "bad_args");
  }

  lemma UnknownVerbReplies(id: nat)
    ensures Replies(UnknownVerb(id), ErrLine(id, 400, "unknown_verb"), |Dec(id)| + 22)
  {
    hide Replies, Send, Dec;
    ErrorReplies(id, 400, "unknown_verb");
  }

  lemma ThreeDigits(code: nat)
    requires 100 <= code < 1000
    ensures |Dec(code)| == 3
  {
    assert Digits(code / 10 / 10, 10) == [DigitChar(code / 10 / 10)];
    assert Digits(code / 10, 10) == Digits(code / 10 / 10, 10) + [DigitChar(code / 10 % 10)];
  }

  lemma ReadyReplies(id: nat, tool: string)
    requires NoSpaces(tool)
    ensures Replies(Send(ReadyLine(id, PROTO, tool, "B")), ReadyLine(id, 1, tool, "B"), |Dec(id)| + 33 + |tool|)
  {
    hide Replies, Send;
    var r := ReadyLine(id, PROTO, tool, "B");
    assert |Dec(PROTO)| == 1;
    assert |Body(r)| == |Dec(id)| + 6 + 1 + 7 + 1 + (5 + |tool|) + 1 + 11;
    SendReplies(r);
  }

  lemma PongReplies(id: nat)
    ensures Replies(Send(PongLine(id)), PongLine(id), |Dec(id)| + 6)
  {
    hide Replies, Send, Dec;
    assert |Body(PongLine(id))| == |Dec(id)| + 5;
    SendReplies(PongLine(id));
  }

  /** The arguments a queued verb accepts. */
  predicate GoodArgs(c: Command) {
    match c.verb
    case SESSION => |c.args| == 1 && HexArg(c.args[0]).Some?
    case SECURITY => |c.args| == 1 && HexArg(c.args[0]).Some?
    case READDTC => c.args == [] || (|c.args| == 1 && HexArg(c.args[0]).Some?)
    case CLEARDTC => c.args == []
    case TP => |c.args| == 1 && (Upper(c.args[0]) == "START" || Upper(c.args[0]) == "STOP")
    case RAW => c.data.Some? && c.data.value != []
    case _ => false
  }

  lemma DefaultMask()
    ensures HexArg("FF") == Some(0xFF)
  {
    assert DigitValue("FF"[0]) == DigitValue("FF"[1]) == 15;
    assert "FF"[..1] == "F" && "F"[..0] == "" && "F"[0] == 'F';
    assert ValueOf("F", 16) == 15;
    ParseUnsigned("FF", 16);
  }

  /** What a command with good arguments asks the backend for. */
  function RequestOf(c: Command): Cmd
    requires GoodArgs(c)
  {
    match c.verb
    case RAW => Cmd(c.id, 0, 0, c.data)
    case READDTC => Cmd(c.id, 1, if c.args == [] then 255 else ParseInt(c.args[0], 16).value, None)
    case CLEARDTC => Cmd(c.id, 2, 0, None)
    case SECURITY => Cmd(c.id, 3, ParseInt(c.args[0], 16).value, None)
    case SESSION => Cmd(c.id, 4, ParseInt(c.args[0], 16).value, None)
    case TP => Cmd(c.id, if Upper(c.args[0]) == "START" then 5 else 6, 0, None)
  }

  /** Every verb that is not answered at once queues its request exactly when its arguments are good. */
  lemma OtherVerbsQueue(c: Command, tool: string)
    requires WellFormedCommand(c) && c.verb !in {HELLO, PING, BYE}
    ensures var act := Execute(c, tool);
            if GoodArgs(c) then act == Queued(RequestOf(c)) && WellFormedCmd(act.cmd) && act.cmd.id == c.id
            else act == BadArgs(c.id)
  {
    hide Upper, BadArgs, ParseInt;
    DefaultMask();
  }

  /** The reply to an accepted command, if it is answered at once. */
  function CommandReply(c: Command, tool: string): Option<Response> {
    if c.verb == HELLO then Some(ReadyLine(c.id, 1, tool, "B"))
    else if c.verb == PING then Some(PongLine(c.id))
    else if c.verb == BYE || GoodArgs(c) then None
    else Some(ErrLine(c.id, 422, "bad_args"))
  }

  /** Its length with the newline; 0 when there is none. */
  function CommandReplySize(c: Command, tool: string): nat {
    if c.verb == HELLO then |Dec(c.id)| + 33 + |tool|
    else if c.verb == PING then |Dec(c.id)| + 6
    else if c.verb == BYE || GoodArgs(c) then 0
    else |Dec(c.id)| + 18
  }

  /** The reaction to an accepted command. */
  lemma ExecuteReacts(c: Command, tool: string)
    requires WellFormedCommand(c) && NoSpaces(tool)
    ensures var act := Execute(c, tool);
            match CommandReply(c, tool)
            case Some(r) => CommandReplySize(c, tool) > 0 && Replies(act, r, CommandReplySize(c, tool))
            case None =>
              && CommandReplySize(c, tool) == 0
              && (c.verb == BYE ==> act == Close)
              && (c.verb != BYE ==>
                    GoodArgs(c) && act == Queued(RequestOf(c)) && WellFormedCmd(act.cmd) && act.cmd.id == c.id)
  {
    hide Replies, GoodArgs, Dec, BadArgs, Send, RequestOf;
    if c.verb == HELLO {
      ReadyReplies(c.id, tool);
    } else if c.verb == PING {
      PongReplies(c.id);
    } else if c.verb != BYE {
      OtherVerbsQueue(c, tool);
      BadArgsReplies(c.id);
    }
  }

  lemma AcceptedKeepsId(line: string)
    requires ParseCommand(line).Ok?
    ensures |Split(line)| >= 2 && ParseCommand(line).value.id == ReplyId(Split(line))
    ensures VerbOf(Upper(Split(line)[1])) == Some(ParseCommand(line).value.verb)
  {
    SplitStripNewlines(line);
  }

  /** Whatever the line, what is queued is well formed and carries the line's id. */
  lemma QueuedIsWellFormed(line: string, tool: string)
    requires Dispatch(line, tool).Queued?
    ensures WellFormedCmd(Dispatch(line, tool).cmd) && Dispatch(line, tool).cmd.id == ReplyId(Split(line))
  {
    hide ParseCommand, Split, Strip, Encode, HexArg, Upper, ReplyId, WellFormedCommand;
    var stripped := Strip(line);
    SplitStrip(line);
    ParsedCommandIsWellFormed(stripped);
    AcceptedKeepsId(stripped);
    OtherVerbsQueue(ParseCommand(stripped).value, tool);
  }

  const CLIENT_WORDS := {"HELLO", "SESSION", "READDTC", "CLEARDTC", "SECURITY", "TP", "RAW", "PING", "BYE"}

  lemma ClientWords(tok: string)
    ensures IsClientWord(tok) <==> Upper(tok) in CLIENT_WORDS
  {
    hide Upper;
  }

  /** The reply to a line, if it is answered at once. */
  function ReplyTo(line: string, tool: string): Option<Response> {
    var tokens := Split(line);
    if tokens == [] then None
    else if |tokens| >= 2 && Upper(tokens[1]) !in CLIENT_WORDS then
      Some(ErrLine(ReplyId(tokens), 400, "unknown_verb"))
    else
      match ParseCommand(Strip(line))
      case Err(_) => Some(ErrLine(ReplyId(tokens), 422, "bad_args"))
      case Ok(c) => CommandReply(c, tool)
  }

  /** The length of the reply to a line, newline included; 0 when there is none. */
  function ReplySize(line: string, tool: string): nat {
    var tokens := Split(line);
    if tokens == [] then 0
    else if |tokens| >= 2 && Upper(tokens[1]) !in CLIENT_WORDS then |Dec(ReplyId(tokens))| + 22
    else
      match ParseCommand(Strip(line))
      case Err(_) => |Dec(ReplyId(tokens))| + 18
      case Ok(c) => CommandReplySize(c, tool)
  }

  /**
   Every line is blank (ignored), or BYE (close), or gets one immediate reply with its id (0 when it has
   none), or queues one well-formed command with its id: exactly the reply or request it should. Encoding
   raises exactly when that one reply would be longer than a line.
   */
  lemma EveryLineReacts(line: string, tool: string)
    requires NoSpaces(tool)
    ensures var act, tokens, reply := Dispatch(line, tool), Split(line), ReplyTo(line, tool);
            && (act.Ignored? <==> tokens == [])
            && (reply.Some? ==> act.Sent? || act.Failed?)
            && (act.Failed? <==> ReplySize(line, tool) > MAX_LINE)
            && (act.Sent? <==> 0 < ReplySize(line, tool) <= MAX_LINE)
            && match act
               case Close => |tokens| >= 2 && Upper(tokens[1]) == "BYE"
               case Sent(_) =>
                 && reply.Some? && Says(act, reply.value) && reply.value.id == ReplyId(tokens)
                 && (ParseSeq(tokens[0]).None? ==> reply.value.id == 0)
               case Queued(cmd) =>
                 && WellFormedCmd(cmd) && cmd.id == ReplyId(tokens)
                 && var c := ParseCommand(Strip(line)); c.Ok? && GoodArgs(c.value) && cmd == RequestOf(c.value)
               case _ => true
  {
    hide Split, Strip, ParseCommand, ParseResponse, Dec, ReplyId, BadArgs, UnknownVerb, Execute, CommandReplySize,
         CommandReply, WellFormedCmd, Upper, IsClientWord, GoodArgs, RequestOf;
    var stripped, tokens := Strip(line), Split(line);
    SplitStrip(line);
    BadArgsReplies(ReplyId(tokens));
    UnknownVerbReplies(ReplyId(tokens));
    if |tokens| >= 2 {
      ClientWords(tokens[1]);
    }
    if tokens != [] && ParseCommand(stripped).Ok? {
      ParsedCommandIsWellFormed(stripped);
      AcceptedKeepsId(stripped);
      ExecuteReacts(ParseCommand(stripped).value, tool);
      CommandReplyId(ParseCommand(stripped).value, tool);
      ByeWord(Upper(tokens[1]));
    }
    if tokens != [] {
      UnparsableId(tokens);
    }
  }

  lemma UnparsableId(tokens: seq<string>)
    requires tokens != []
    ensures ParseSeq(tokens[0]).None? ==> ReplyId(tokens) == 0
  {}

  lemma CommandReplyId(c: Command, tool: string)
    ensures CommandReply(c, tool).Some? ==> CommandReply(c, tool).value.id == c.id
  {}

  lemma ByeWord(word: string)
    ensures VerbOf(word) == Some(BYE) ==> word == "BYE"
  {}

  function PowerOfTen(k: nat): (n: nat)
    ensures n > 0
  {
    if k == 0 then 1 else 10 * PowerOfTen(k - 1)
  }

  lemma {:induction false} DigitsOfPower(k: nat)
    ensures |Digits(PowerOfTen(k), 10)| == k + 1
    decreases k
  {
    if k > 0 {
      DigitsOfPower(k - 1);
      assert PowerOfTen(k) / 10 == PowerOfTen(k - 1) && PowerOfTen(k) >= 10;
    }
  }

  /** A PING whose id has 4090 digits fills a line, and its PONG is one character too long. */
  lemma LongPingRaises(id: nat, tool: string)
    requires |Dec(id)| == 4090
    ensures |CommandBody(Command(id, PING, [], None))| == MAX_LINE
    ensures Dispatch(CommandBody(Command(id, PING, [], None)), tool).Failed?
  {
    hide Dec, Split, Strip, Upper, ParseCommand;
    var c := Command(id, PING, [], None);
    var line := CommandBody(c);
    var tokens := [Dec(id), "PING"];
    ParseDec(id);
    JoinTwo(Dec(id), "PING", []);
    assert tokens + [] == tokens;
    assert AreTokens(tokens);
    SplitJoin(tokens);
    SplitStrip(line);
    CommandOfTokens(Strip(line), c);
    VerbOfName(PING);
    assert Split(line)[1] == Name(PING);
    assert |Body(PongLine(id))| == |Dec(id)| + 5;
  }

  /** A line within the limit can make the dispatcher raise. */
  lemma SomeLineRaises(tool: string)
    ensures exists line :: |line| <= MAX_LINE && Dispatch(line, tool).Failed?
  {
    hide Dispatch, CommandBody, Digits, PowerOfTen;
    DigitsOfPower(4089);
    LongPingRaises(PowerOfTen(4089), tool);
  }

  // ---------------------------------------------------------------- letter case

  lemma ShoutedExecutes(c: Command, tool: string)
    ensures Execute(Shouted(c), tool) == Execute(c, tool)
  {
    hide Send, Upper, ParseInt;
    if |c.args| == 1 {
      UpperNumeral(c.args[0], 16);
      UpperIsStable(c.args[0]);
      assert UpperAll(c.args)[0] == Upper(c.args[0]);
    }
  }

  /** Letter case carries no meaning: a line does what its upper-case version does. */
  lemma CaseIsIgnored(a: string, b: string, tool: string)
    requires |a| <= MAX_LINE && |b| <= MAX_LINE && Split(b) == UpperAll(Split(a))
    ensures Dispatch(b, tool) == Dispatch(a, tool)
  {
    hide Split, Strip, ParseCommand, ParseInt, Upper, Execute, BadArgs, UnknownVerb, Shouted;
    SplitStrip(a);
    SplitStrip(b);
    var ts := Split(a);
    if ts != [] {
      UpperNumeral(ts[0], 10);
      if |ts| >= 2 {
        UpperIsStable(ts[1]);
      }
      ShoutedParse(Strip(a), Strip(b));
      if ParseCommand(Strip(a)).Ok? {
        ShoutedExecutes(ParseCommand(Strip(a)).value, tool);
      }
    }
  }

  lemma UpperWords()
    ensures UpperAll(["1", "session", "0a"]) == ["1", "SESSION", "0A"]
    ensures AreTokens(["1", "session", "0a"]) && AreTokens(["1", "SESSION", "0A"])
  {
    assert Upper("1") == "1" && Upper("session") == "SESSION" && Upper("0a") == "0A";
  }

  lemma JoinThree(a: string, b: string, c: string)
    ensures Join([a, b, c]) == a + " " + b + " " + c
  {
    JoinTwo(a, b, [c]);
    JoinOne(c);
    assert [a, b] + [c] == [a, b, c];
  }

  lemma TenInHex()
    ensures HexArg("0A") == Some(10)
  {
    assert DigitValue("0A"[0]) == 0 && DigitValue("0A"[1]) == 10;
    assert "0A"[..1] == "0" && "0"[..0] == "" && "0"[0] == '0';
    assert ValueOf("0", 16) == 0;
    ParseUnsigned("0A", 16);
  }

  lemma UpperSession(tool: string)
    ensures Dispatch("1 SESSION 0A", tool) == Queued(Cmd(1, 4, 10, None))
  {
    hide Split, Strip, ParseCommand, HexArg, Upper;
    var c := Command(1, SESSION, ["0A"], None);
    var ts := ["1", "SESSION", "0A"];
    UpperWords();
    JoinThree("1", "SESSION", "0A");
    assert Join(ts) == "1 SESSION 0A";
    SplitJoin(ts);
    assert Dec(1) == "1" && ts == [Dec(c.id), Name(c.verb)] + c.args;
    SplitStrip("1 SESSION 0A");
    CommandOfTokens(Strip("1 SESSION 0A"), c);
    VerbOfName(SESSION);
    TenInHex();
  }

  /** For instance. */
  lemma LowerCaseSession(tool: string)
    ensures Dispatch("1 session 0a", tool) == Queued(Cmd(1, 4, 10, None))
  {
    hide Dispatch, Split, Join, Upper;
    UpperWords();
    JoinThree("1", "session", "0a");
    JoinThree("1", "SESSION", "0A");
    assert "1" + " " + "session" + " " + "0a" == "1 session 0a";
    assert "1" + " " + "SESSION" + " " + "0A" == "1 SESSION 0A";
    SplitJoin(["1", "session", "0a"]);
    SplitJoin(["1", "SESSION", "0A"]);
    CaseIsIgnored("1 session 0a", "1 SESSION 0A", tool);
    UpperSession(tool);
  }

  /** A bare READDTC asks for every status. */
  lemma BareReadDtc(line: string, id: nat, tool: string)
    requires |line| <= MAX_LINE && Split(line) == [Dec(id), "READDTC"]
    ensures Dispatch(line, tool) == Queued(Cmd(id, 1, 0xFF, None))
  {
    hide Split, Strip, ParseCommand, Dec, Upper, HexArg, Join, DecodeTokens, BadArgs, UnknownVerb;
    var c := Command(id, READDTC, [], None);
    assert [Dec(id), Name(READDTC)] + c.args == Split(line);
    SplitStrip(line);
    CommandOfTokens(Strip(line), c);
    VerbOfName(READDTC);
    DefaultMask();
  }
}
