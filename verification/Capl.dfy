/**
 The CAPL node: the diagnostic core of vector/capl/flexdiag_core.can behind the System Variable
 transport of vector/capl/flexdiag_sysvar.can. First as functions from state to state and outputs,
 then as the node that updates its globals.
 */
module Capl {
  import opened Base
  import opened Bridge

  const MAX_LEN := 4095
  const KEY_BUFFER := 256

  /** The globals of the core. `armed` is the timer `gReqTimeout`. */
  datatype Core = Core(
    reqSeq: int,
    reqKind: int,
    secActive: bool,
    secSeq: int,
    secLevel: Byte,
    armed: bool)

  /** A call of `PublishRsp`, or a frame handed to the diagnostic layer. */
  datatype Output = Publish(evt: Evt) | Transmit(frame: Bytes)

  /** The seed-key DLL: any function of seed and level that may fail. */
  type KeyGen = (Bytes, Byte) -> Option<Bytes>

  function Clip(b: Bytes, limit: nat): Bytes {
    if |b| > limit then b[..limit] else b
  }

  /** `(byte)n`. */
  function ToByte(n: int): Byte {
    n % 256
  }

  /** `diagIsNegativeResponse`. */
  predicate IsNegative(frame: Bytes) {
    frame != [] && frame[0] == 0x7F
  }

  // ---------------------------------------------------------------- requests

  function SendRaw(c: Core, id: int, data: Bytes): (Core, seq<Output>) {
    (c.(reqSeq := id, armed := true), [Transmit(Clip(data, MAX_LEN))])
  }

  /** `on sysvar Diag::ReqTrigger`: the dispatch on the request kind. */
  function OnReqTrigger(c: Core, id: int, kind: int, arg: int, data: Bytes): (Core, seq<Output>) {
    if kind == KIND_RAW then SendRaw(c.(reqKind := kind), id, data)
    else if kind == KIND_READDTC then SendRaw(c.(reqKind := kind), id, [0x19, 0x02, ToByte(arg)])
    else if kind == KIND_CLEARDTC then SendRaw(c.(reqKind := kind), id, [0x14, 0xFF, 0xFF, 0xFF])
    else if kind == KIND_SECURITY then
      SendRaw(c.(reqKind := kind, secActive := true, secSeq := id, secLevel := ToByte(arg)),
              id, [0x27, ToByte(arg)])
    else if kind == KIND_SESSION then SendRaw(c.(reqKind := kind), id, [0x10, ToByte(arg)])
    else if IsTp(kind) then (c, [Publish(Evt(id, STATUS_OK, kind, []))])
    else (c, [])
  }

  // ---------------------------------------------------------------- answers

  function PublishNow(c: Core, status: int, data: Bytes): (Core, seq<Output>) {
    (c, [Publish(Evt(c.reqSeq, status, c.reqKind, data))])
  }

  /** `if (gSecActive && gReqSeq == gSecSeq) gSecActive = 0`. */
  function EndSecurity(c: Core): Core {
    if c.secActive && c.reqSeq == c.secSeq then c.(secActive := false) else c
  }

  /** `on diagResponse ECU1.*`. */
  function OnDiagResponse(core: Core, frame: Bytes, keygen: KeyGen): (Core, seq<Output>) {
    var c := core.(armed := false);
    var rsp := Clip(frame, MAX_LEN);
    if IsNegative(frame) then
      if |rsp| >= 3 && rsp[2] == 0x78 then PublishNow(c.(armed := true), STATUS_NEGATIVE, rsp)
      else PublishNow(EndSecurity(c), STATUS_NEGATIVE, rsp)
    else OnPositive(c, rsp, keygen)
  }

  /** The positive branch: the security continuation, or a plain answer. */
  function OnPositive(c: Core, rsp: Bytes, keygen: KeyGen): (Core, seq<Output>) {
    if c.secActive && c.reqSeq == c.secSeq && c.reqKind == KIND_SECURITY && |rsp| >= 2 && rsp[0] == 0x67 then
      if rsp[1] == c.secLevel then SecuritySendKey(c, c.reqSeq, Clip(rsp[2..], KEY_BUFFER), keygen)
      else if rsp[1] == ToByte(c.secLevel + 1) then
        PublishNow(c.(secActive := false), STATUS_OK, rsp)
      else PublishNow(c, STATUS_POSITIVE, rsp)
    else PublishNow(c, STATUS_POSITIVE, rsp)
  }

  function SecuritySendKey(c: Core, id: int, seed: Bytes, keygen: KeyGen): (Core, seq<Output>) {
    match keygen(seed, c.secLevel)
    case None => (c.(secActive := false), [Publish(Evt(id, STATUS_ERR_KEYGEN, c.reqKind, []))])
    case Some(key) =>
      SendRaw(c.(reqKind := KIND_SECURITY), id, [0x27, ToByte(c.secLevel + 1)] + Clip(key, KEY_BUFFER))
  }

  /** `on timer gReqTimeout`. */
  function OnTimeout(core: Core): (Core, seq<Output>) {
    PublishNow(EndSecurity(core.(armed := false)), STATUS_ERR_TIMEOUT, [0x7F, 0x00, 0x00])
  }

  // ---------------------------------------------------------------- the System Variables

  /** The `Diag::*` variables shared by the bridge and the node. */
  class DiagVars {
    var reqData: Bytes
    var reqSeq: int
    var reqKind: int
    var reqArg: int
    var reqTrigger: int
    var rspData: Bytes
    var rspSeq: int
    var rspStatus: int
    var rspKind: int
    var rspTrigger: int

    function Rsp(): Evt
      reads this
    {
      Evt(rspSeq, rspStatus, rspKind, rspData)
    }
  }

  function Publishes(outs: seq<Output>): seq<Evt> {
    if outs == [] then []
    else
      var last := outs[|outs| - 1];
      Publishes(outs[..|outs| - 1]) + if last.Publish? then [last.evt] else []
  }

  lemma OneOutput()
    ensures Publishes([]) == []
    ensures forall f :: Publishes([Transmit(f)]) == []
    ensures forall v :: Publishes([Publish(v)]) == [v]
  {
    forall o: Output
      ensures Publishes([o]) == if o.Publish? then [o.evt] else []
    {
      assert [o][..0] == [];
    }
  }

  // ---------------------------------------------------------------- the node

  class CaplNode {
    const vars: DiagVars
    const gRsp: array<Byte>
    var gRspLen: nat
    var gReqSeq: int
    var gReqKind: int
    var gSecActive: bool
    var gSecSeq: int
    var gSecLevel: Byte
    var armed: bool
    /** Everything the node has published and sent, in order. */
    ghost var outputs: seq<Output>

    ghost predicate Valid()
      reads this
    {
      gRsp.Length == MAX_LEN && gRspLen <= MAX_LEN
    }

    function State(): Core
      reads this
    {
      Core(gReqSeq, gReqKind, gSecActive, gSecSeq, gSecLevel, armed)
    }

    constructor (vars: DiagVars)
      ensures Valid() && this.vars == vars && outputs == []
      ensures State() == Core(0, 0, false, 0, 0, false)
    {
      this.vars := vars;
      gRsp := new Byte[MAX_LEN];
      gRspLen, gReqSeq, gReqKind := 0, 0, 0;
      gSecActive, gSecSeq, gSecLevel, armed := false, 0, 0, false;
      outputs := [];
    }

    /** The response variables hold what was published last, and the trigger counts every publish. */
    twostate predicate Notified(outs: seq<Output>)
      reads this, vars
    {
      && outputs == old(outputs) + outs
      && vars.rspTrigger == old(vars.rspTrigger) + |Publishes(outs)|
      && (Publishes(outs) != [] ==> vars.Rsp() == Publishes(outs)[|Publishes(outs)| - 1])
      && (Publishes(outs) == [] ==> vars.Rsp() == old(vars.Rsp()))
    }

    method PublishRsp(id: int, status: int, data: Bytes, kind: int)
      modifies this`outputs, vars`rspData, vars`rspSeq, vars`rspStatus, vars`rspKind, vars`rspTrigger
      ensures Notified([Publish(Evt(id, status, kind, data))])
    {
      vars.rspData := data;
      vars.rspSeq := id;
      vars.rspStatus := status;
      vars.rspKind := kind;
      vars.rspTrigger := vars.rspTrigger + 1;
      outputs := outputs + [Publish(Evt(id, status, kind, data))];
      assert [Publish(Evt(id, status, kind, data))][..0] == [];
    }

    method SendRawFrame(id: int, data: Bytes)
      modifies this`gReqSeq, this`armed, this`outputs
      ensures (State(), [Transmit(Clip(data, MAX_LEN))]) == SendRaw(old(State()), id, data)
      ensures outputs == old(outputs) + [Transmit(Clip(data, MAX_LEN))]
    {
      gReqSeq := id;
      outputs := outputs + [Transmit(Clip(data, MAX_LEN))];
      armed := true;
    }

    method OnSysvarReqTrigger()
      requires Valid()
      modifies this, vars
      ensures Valid()
      ensures var (core, outs) := OnReqTrigger(old(State()), old(vars.reqSeq), old(vars.reqKind),
                                               old(vars.reqArg), old(vars.reqData));
              State() == core && Notified(outs)
    {
      var id, kind, arg := vars.reqSeq, vars.reqKind, vars.reqArg;
      if kind == KIND_RAW {
        gReqKind := kind;
        SendRawFrame(id, vars.reqData);
      } else if kind == KIND_READDTC {
        gReqKind := kind;
        SendRawFrame(id, [0x19, 0x02, ToByte(arg)]);
      } else if kind == KIND_CLEARDTC {
        gReqKind := kind;
        SendRawFrame(id, [0x14, 0xFF, 0xFF, 0xFF]);
      } else if kind == KIND_SECURITY {
        gReqKind := kind;
        gSecActive, gSecSeq, gSecLevel := true, id, ToByte(arg);
        SendRawFrame(id, [0x27, ToByte(arg)]);
      } else if kind == KIND_SESSION {
        gReqKind := kind;
        SendRawFrame(id, [0x10, ToByte(arg)]);
      } else if kind == KIND_TP_START || kind == KIND_TP_STOP {
        PublishRsp(id, STATUS_OK, [], kind);
      }
      OneOutput();
    }

    method OnResponse(frame: Bytes, keygen: KeyGen)
      requires Valid()
      modifies this, vars, gRsp
      ensures Valid()
      ensures var (core, outs) := OnDiagResponse(old(State()), frame, keygen);
              State() == core && Notified(outs)
    {
      armed := false;
      var len := if |frame| > MAX_LEN then MAX_LEN else |frame|;
      ReadPrimitive(frame, len);
      assert gRsp[..len] == Clip(frame, MAX_LEN);
      if !IsNegative(frame) {
        PositiveAnswer(keygen);
        return;
      }
      var pending := len >= 3 && gRsp[2] == 0x78;
      if !pending && gSecActive && gReqSeq == gSecSeq {
        gSecActive := false;
      }
      PublishRsp(gReqSeq, STATUS_NEGATIVE, gRsp[..len], gReqKind);
      if pending {
        armed := true;
      }
    }

    method PositiveAnswer(keygen: KeyGen)
      requires Valid()
      modifies this, vars
      ensures Valid()
      ensures var (core, outs) := OnPositive(old(State()), old(gRsp[..gRspLen]), keygen);
              State() == core && Notified(outs)
    {
      var len := gRspLen;
      if gSecActive && gReqSeq == gSecSeq && gReqKind == KIND_SECURITY && len >= 2 && gRsp[0] == 0x67 {
        if gRsp[1] == gSecLevel {
          var seed := CopySeed(len);
          SendKeyFor(gReqSeq, seed, keygen);
          return;
        }
        if gRsp[1] == ToByte(gSecLevel + 1) {
          gSecActive := false;
          PublishRsp(gReqSeq, STATUS_OK, gRsp[..len], gReqKind);
          return;
        }
      }
      PublishRsp(gReqSeq, STATUS_POSITIVE, gRsp[..len], gReqKind);
    }

    /** `diagGetPrimitiveData(this, gRsp, len)`. */
    method ReadPrimitive(frame: Bytes, len: nat)
      requires Valid() && len <= |frame| && len <= MAX_LEN
      modifies gRsp, this`gRspLen
      ensures Valid() && gRspLen == len && gRsp[..len] == frame[..len]
    {
      for i := 0 to len
        modifies gRsp
        invariant gRsp[..i] == frame[..i]
      {
        gRsp[i] := frame[i];
      }
      gRspLen := len;
    }

    /** The seed bytes of the buffered answer, at most a buffer full. */
    method CopySeed(len: nat) returns (seed: Bytes)
      requires Valid() && 2 <= len <= MAX_LEN
      ensures seed == Clip(gRsp[..len][2..], KEY_BUFFER)
    {
      var seedLen := if len - 2 > KEY_BUFFER then KEY_BUFFER else len - 2;
      var buffer := new Byte[KEY_BUFFER];
      for i := 0 to seedLen
        invariant buffer[..i] == gRsp[2..i + 2]
      {
        buffer[i] := gRsp[i + 2];
      }
      seed := buffer[..seedLen];
    }

    /** `SecuritySendKey` and `DoSendKey`. */
    method SendKeyFor(id: int, seed: Bytes, keygen: KeyGen)
      requires Valid()
      modifies this`gSecActive, this`gReqKind, this`gReqSeq, this`armed, this`outputs,
               vars`rspData, vars`rspSeq, vars`rspStatus, vars`rspKind, vars`rspTrigger
      ensures Valid()
      ensures var (core, outs) := SecuritySendKey(old(State()), id, seed, keygen);
              State() == core && Notified(outs)
    {
      OneOutput();
      var key := keygen(seed, gSecLevel);
      if key.None? {
        gSecActive := false;
        PublishRsp(id, STATUS_ERR_KEYGEN, [], gReqKind);
        return;
      }
      var req := KeyRequest(key.value);
      gReqKind := KIND_SECURITY;
      SendRawFrame(id, req);
    }

    method KeyRequest(key: Bytes) returns (frame: Bytes)
      ensures frame == [0x27, ToByte(gSecLevel + 1)] + Clip(key, KEY_BUFFER)
    {
      var len := if |key| > KEY_BUFFER then KEY_BUFFER else |key|;
      var req := new Byte[KEY_BUFFER + 2];
      req[0] := 0x27;
      req[1] := ToByte(gSecLevel + 1);
      for i := 0 to len
        invariant req[..i + 2] == [0x27, ToByte(gSecLevel + 1)] + key[..i]
      {
        req[i + 2] := key[i];
      }
      frame := req[..len + 2];
    }

    method OnTimer()
      requires Valid()
      modifies this, vars
      ensures Valid()
      ensures var (core, outs) := OnTimeout(old(State()));
              State() == core && Notified(outs)
    {
      armed := false;
      if gSecActive && gReqSeq == gSecSeq {
        gSecActive := false;
      }
      PublishRsp(gReqSeq, STATUS_ERR_TIMEOUT, [0x7F, 0x00, 0x00], gReqKind);
    }
  }
}
