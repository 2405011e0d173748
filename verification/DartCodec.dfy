/**
 The second codec, flutter_app/lib/protocol/codec.dart. It tokenises with `trim` and a regular
 expression instead of `str.split`, and its integers have 64 bits; apart from that it must read
 every server line as the Python codec does.
 */
module DartCodec {
  import opened Base
  import opened Text
  import opened Wire

  // ---------------------------------------------------------------- tokens

  /** What `\s` matches in a Dart regular expression. */
  predicate IsRegexSpace(c: char) {
    '\t' <= c <= '\r' || c == ' ' || IsWideSpace(c) || c == '\U{feff}'
  }

  /** What `String.trim` removes. */
  predicate IsTrimmed(c: char) {
    IsRegexSpace(c) || c == '\U{85}'
  }

  /** No character on which the three notions of white space differ. */
  predicate PlainText(s: string) {
    forall i :: 0 <= i < |s| ==> (IsSpace(s[i]) <==> IsRegexSpace(s[i])) && (IsSpace(s[i]) <==> IsTrimmed(s[i]))
  }

  /** The six characters two of the notions differ on: four separators, next line, and the byte order mark. */
  lemma PlainTextIff(s: string)
    ensures PlainText(s) <==>
              forall i :: 0 <= i < |s| ==>
                            s[i] !in {'\U{1c}', '\U{1d}', '\U{1e}', '\U{1f}', '\U{85}', '\U{feff}'}
  {
    forall i | 0 <= i < |s|
      ensures (s[i] in {'\U{1c}', '\U{1d}', '\U{1e}', '\U{1f}', '\U{85}', '\U{feff}'})
              <==> !((IsSpace(s[i]) <==> IsRegexSpace(s[i])) && (IsSpace(s[i]) <==> IsTrimmed(s[i])))
    {}
  }

  function Trim(s: string): string {
    TrimLeft(TrimRight(s))
  }

  function TrimLeft(s: string): string {
    if s != "" && IsTrimmed(s[0]) then TrimLeft(s[1..]) else s
  }

  function TrimRight(s: string): string {
    if s != "" && IsTrimmed(s[|s| - 1]) then TrimRight(s[..|s| - 1]) else s
  }

  /** The position of the first match of `\s`, or the end. */
  function FirstSpace(s: string): (n: nat)
    ensures n <= |s|
    ensures forall i :: 0 <= i < n ==> !IsRegexSpace(s[i])
    ensures n < |s| ==> IsRegexSpace(s[n])
  {
    if s == "" || IsRegexSpace(s[0]) then 0 else 1 + FirstSpace(s[1..])
  }

  function SkipSpaces(s: string): (t: string)
    ensures |t| <= |s|
    ensures s != "" && IsRegexSpace(s[0]) ==> |t| < |s|
  {
    if s != "" && IsRegexSpace(s[0]) then SkipSpaces(s[1..]) else s
  }

  /** `s.split(RegExp(r'\s+'))`: the empty pieces before and after separators are kept. */
  function RegexSplit(s: string): seq<string>
    decreases |s|
  {
    var n := FirstSpace(s);
    if n == |s| then [s] else [s[..n]] + RegexSplit(SkipSpaces(s[n..]))
  }

  lemma {:induction false} TrimRightIsStripRight(s: string)
    requires PlainText(s)
    ensures TrimRight(s) == StripRight(s) <= s
    ensures TrimRight(s) != "" ==> !IsSpace(TrimRight(s)[|TrimRight(s)| - 1])
    decreases |s|
  {
    if s != "" && IsSpace(s[|s| - 1]) {
      TrimRightIsStripRight(s[..|s| - 1]);
    }
  }

  lemma {:induction false} TrimLeftIsStripLeft(s: string)
    requires PlainText(s)
    ensures TrimLeft(s) == StripLeft(s) && PlainText(TrimLeft(s))
    ensures TrimLeft(s) != "" ==> TrimLeft(s)[|TrimLeft(s)| - 1] == s[|s| - 1]
    ensures TrimLeft(s) != "" ==> s != "" && !IsSpace(TrimLeft(s)[0])
    decreases |s|
  {
    if s != "" && IsSpace(s[0]) {
      TrimLeftIsStripLeft(s[1..]);
    }
  }

  lemma {:induction false} SkipSpacesKeepsTokens(s: string)
    requires PlainText(s) && s != "" && !IsSpace(s[|s| - 1])
    ensures var t := SkipSpaces(s);
            && Split(t) == Split(s) && PlainText(t)
            && t != "" && !IsSpace(t[0]) && t[|t| - 1] == s[|s| - 1]
    decreases |s|
  {
    if IsSpace(s[0]) {
      assert s[1..][|s| - 2] == s[|s| - 1];
      SkipSpacesKeepsTokens(s[1..]);
    }
  }

  lemma PrefixIsToken(s: string, n: nat)
    requires PlainText(s) && 0 < n <= |s| && forall i :: 0 <= i < n ==> !IsRegexSpace(s[i])
    ensures IsToken(s[..n])
  {
    forall i | 0 <= i < n
      ensures !IsSpace(s[..n][i])
    {
      assert s[..n][i] == s[i];
    }
  }

  lemma FirstWord(s: string, n: nat)
    requires 0 < n < |s| && IsToken(s[..n]) && IsSpace(s[n])
    ensures Split(s) == [s[..n]] + Split(s[n..])
  {
    var tail := s[n..];
    SplitTokenThen(s[..n], s[n], tail[1..]);
    assert s[..n] + [s[n]] + tail[1..] == s;
    assert Split(tail) == Split(tail[1..]);
  }

  /** On trimmed plain text the regular expression cuts where `str.split` does. */
  lemma {:induction false} RegexSplitIsSplit(s: string)
    requires PlainText(s) && s != "" && !IsSpace(s[0]) && !IsSpace(s[|s| - 1])
    ensures RegexSplit(s) == Split(s)
    decreases |s|
  {
    var n := FirstSpace(s);
    if n == |s| {
      PrefixIsToken(s, n);
      assert s[..n] == s;
      SplitToken(s);
    } else {
      assert n > 0 && IsSpace(s[n]);
      PrefixIsToken(s, n);
      FirstWord(s, n);
      var tail := s[n..];
      assert tail[|tail| - 1] == s[|s| - 1];
      SkipSpacesKeepsTokens(tail);
      RegexSplitIsSplit(SkipSpaces(tail));
    }
  }

  lemma RegexSplitOfNothing()
    ensures RegexSplit("") == [""]
  {}

  lemma TrimIsStrip(s: string)
    requires PlainText(s)
    ensures Trim(s) == Strip(s) && PlainText(Trim(s))
    ensures Trim(s) != "" ==> !IsSpace(Trim(s)[0]) && !IsSpace(Trim(s)[|Trim(s)| - 1])
  {
    TrimRightIsStripRight(s);
    TrimLeftIsStripLeft(TrimRight(s));
  }

  lemma TrimmedSplit(s: string)
    requires PlainText(s)
    ensures Trim(s) == "" ==> Split(s) == []
    ensures Trim(s) != "" ==> RegexSplit(Trim(s)) == Split(s)
  {
    hide Trim, Strip, Split, RegexSplit, IsSpace, PlainText;
    TrimIsStrip(s);
    SplitStrip(s);
    if Trim(s) != "" {
      RegexSplitIsSplit(Trim(s));
    }
  }

  // ---------------------------------------------------------------- responses

  const INT64_MIN := -0x8000_0000_0000_0000
  const INT64_MAX := 0x7FFF_FFFF_FFFF_FFFF

  predicate FitsInt64(n: int) {
    INT64_MIN <= n <= INT64_MAX
  }

  lemma Int64Range(n: int)
    ensures FitsInt64(n) <==> -9223372036854775808 <= n <= 9223372036854775807
  {}

  /** `int.tryParse`. */
  function TryParse(tok: string, base: Radix): Option<int> {
    match ParseInt(tok, base)
    case Some(n) => if FitsInt64(n) then Some(n) else None
    case None => None
  }

  function HexToBytes(s: string): Option<Bytes> {
    DecodeTokens(if Trim(s) == "" then [] else RegexSplit(Trim(s)))
  }

  /** `_splitLine`; `None` stands for the `ProtocolError` it throws. */
  function SplitLine(line: string): Option<(nat, string, seq<string>)> {
    var tokens := RegexSplit(Trim(line));
    if |line| > MAX_LINE || |tokens| < 2 then None
    else
      match TryParse(tokens[0], 10)
      case Some(n) => if n < 0 then None else Some((n, Upper(tokens[1]), tokens[2..]))
      case None => None
  }

  /** `parseResponse`. */
  function ParseResponse(line: string): Option<Response> {
    match SplitLine(line)
    case None => None
    case Some((id, verb, rest)) =>
      match VerbOf(verb)
      case Some(v) => if IsServerVerb(v) then ParseArgs(id, v, rest) else None
      case None => None
  }

  function ParseArgs(id: nat, v: Verb, rest: seq<string>): Option<Response>
    requires IsServerVerb(v)
  {
    match v
    case READY => ParseReady(id, rest)
    case RSP =>
      (match HexToBytes(Join(rest))
       case Some(data) => Some(RspLine(id, data))
       case None => None)
    case NRC =>
      if |rest| != 2 then None
      else
        (match (TryParse(rest[0], 16), TryParse(rest[1], 16))
         case (Some(sid), Some(nrc)) => Some(NrcLine(id, sid, nrc))
         case _ => None)
    case OK =>
      if rest == [] then None
      else if Upper(rest[0]) == "TP" then
        if |rest| != 1 then None else Some(OkTpLine(id))
      else if Upper(rest[0]) == "SEC" then
        if |rest| != 2 then None
        else
          (match TryParse(rest[1], 16)
           case Some(level) => Some(OkSecLine(id, level))
           case None => None)
      else None
    case ERR =>
      if |rest| < 2 then None
      else
        (match TryParse(rest[0], 10)
         case Some(code) => Some(ErrLine(id, code, Join(rest[1..])))
         case None => None)
    case EVT =>
      if rest == [] then None else Some(EvtLine(id, rest[0], rest[1..]))
    case PONG =>
      if rest != [] then None else Some(PongLine(id))
  }

  function ParseReady(id: nat, rest: seq<string>): Option<Response> {
    match ReadyFields(rest)
    case None => None
    case Some(kv) =>
      if "proto" !in kv || "tool" !in kv || "transport" !in kv then None
      else
        match TryParse(kv["proto"], 10)
        case None => None
        case Some(proto) =>
          if kv["transport"] != "A" && kv["transport"] != "B" then None
          else Some(ReadyLine(id, proto, kv["tool"], kv["transport"]))
  }

  /** Every number of the response has 64 bits. */
  predicate FitsDart(r: Response) {
    && FitsInt64(r.id)
    && match r
       case ReadyLine(_, proto, _, _) => FitsInt64(proto)
       case NrcLine(_, sid, nrc) => FitsInt64(sid) && FitsInt64(nrc)
       case OkSecLine(_, level) => FitsInt64(level)
       case ErrLine(_, code, _) => FitsInt64(code)
       case _ => true
  }

  lemma HexAgrees(rest: seq<string>)
    requires AreTokens(rest) && PlainText(Join(rest))
    ensures HexToBytes(Join(rest)) == Wire.HexToBytes(Join(rest))
  {
    TrimmedSplit(Join(rest));
  }

  lemma {:induction false} PlainJoin(ts: seq<string>)
    requires forall i :: 0 <= i < |ts| ==> PlainText(ts[i])
    ensures PlainText(Join(ts))
    decreases |ts|
  {
    if |ts| > 1 {
      PlainJoin(ts[1..]);
    }
  }

  lemma {:induction false} PlainSplit(s: string)
    requires PlainText(s)
    ensures forall i :: 0 <= i < |Split(s)| ==> PlainText(Split(s)[i])
    decreases |s|
  {
    if s != "" {
      PlainSplit(s[1..]);
    }
  }

  /** The grammars of the two codecs differ only in the range of their integers. */
  lemma ArgsAgree(id: nat, v: Verb, rest: seq<string>)
    requires IsServerVerb(v) && FitsInt64(id)
    requires v == RSP ==> HexToBytes(Join(rest)) == Wire.HexToBytes(Join(rest))
    ensures ParseArgs(id, v, rest) == Accepted(Wire.ParseArgs(id, v, rest))
  {}

  /** What Dart makes of Python's verdict. */
  function Accepted(r: Result<Response, WireError>): Option<Response> {
    match r
    case Ok(v) => if FitsDart(v) then Some(v) else None
    case Err(_) => None
  }

  /**
   Both codecs read every plain line alike: Dart accepts exactly what Python accepts and 64 bits can
   hold, with the same fields, and rejects everything else.
   */
  lemma CodecsAgree(line: string)
    requires PlainText(line)
    ensures ParseResponse(line) == Accepted(Wire.ParseResponse(line))
  {
    hide Split, StripNewlines, Trim, RegexSplit, ParseInt, ParseArgs, Wire.ParseArgs, VerbOf, Upper, Join;
    var tokens := Split(line);
    SplitStripNewlines(line);
    TrimmedSplit(line);
    if |line| > MAX_LINE || |tokens| < 2 {
      RegexSplitOfNothing();
      return;
    }
    assert RegexSplit(Trim(line)) == tokens;
    var verb, rest := VerbOf(Upper(tokens[1])), tokens[2..];
    if ParseSeq(tokens[0]).Some? && verb.Some? && IsServerVerb(verb.value) {
      PlainSplit(line);
      PlainJoin(rest);
      HexAgrees(rest);
      var id := ParseSeq(tokens[0]).value;
      IdIsKept(id, verb.value, rest);
      if FitsInt64(id) {
        ArgsAgree(id, verb.value, rest);
      }
    }
  }

  lemma IdIsKept(id: nat, v: Verb, rest: seq<string>)
    requires IsServerVerb(v)
    ensures Wire.ParseArgs(id, v, rest).Ok? ==> Wire.ParseArgs(id, v, rest).value.id == id
  {}

  // ---------------------------------------------------------------- command encoders

  function Hex2(v: nat): string {
    HexPad(v, 2)
  }

  function EncodeSession(id: int, session: nat): string { Head(id, SESSION) + " " + Hex2(session) }

  function EncodeReadDtc(id: int, mask: nat): string { Head(id, READDTC) + " " + Hex2(mask) }

  function EncodeClearDtc(id: int): string { Head(id, CLEARDTC) }

  function EncodeSecurity(id: int, level: nat): string { Head(id, SECURITY) + " " + Hex2(level) }

  function EncodeTpStart(id: int): string { Head(id, TP) + " " + "START" }

  function EncodeTpStop(id: int): string { Head(id, TP) + " " + "STOP" }

  function EncodeRaw(id: int, data: Bytes): string {
    if data == [] then Head(id, RAW) else Head(id, RAW) + " " + BytesToHex(data)
  }
}
