/**
 The mock ECU of mock_ecu/uds.py: DiagnosticSessionControl, ReadDTCInformation,
 ClearDiagnosticInformation, SecurityAccess and TesterPresent (sections 9.2, 11.3, 11.2, 9.4 and 9.6
 of ISO 14229-1:2013), with single-shot injections.
 */
module MockEcu {
  import opened Base

  datatype EcuState = EcuState(
    session: Byte,
    unlocked: bool,
    pendingSeedLevel: Option<Byte>,
    dtcs: seq<(int, Byte)>,
    seed: Bytes,
    injectNrc: Option<Byte>,
    injectPending: bool,
    injectDrop: bool)

  /** What `handle` gives back: an answer, no answer, or a `ValueError`. */
  datatype Answer = Reply(rsp: Bytes) | Silent | Raises

  function TestKey(seed: Bytes): (key: Bytes)
    ensures |key| == |seed|
  {
    seq(|seed|, i requires 0 <= i < |seed| => Xor5A(seed[i]))
  }

  function Xor5A(b: Byte): Byte {
    (b as bv8 ^ 0x5A) as int
  }

  /** `status & mask != 0`. */
  predicate Selected(status: Byte, mask: Byte) {
    status as bv8 & mask as bv8 != 0
  }

  function DtcBytes(entry: (int, Byte)): Bytes {
    [(entry.0 / 0x1_0000) % 256, (entry.0 / 0x100) % 256, entry.0 % 256, entry.1]
  }

  /** The table entries a status mask selects, in order. */
  function Select(dtcs: seq<(int, Byte)>, mask: Byte): seq<(int, Byte)> {
    if dtcs == [] then []
    else
      var last := dtcs[|dtcs| - 1];
      Select(dtcs[..|dtcs| - 1], mask) + if Selected(last.1, mask) then [last] else []
  }

  function Report(dtcs: seq<(int, Byte)>): (b: Bytes)
    ensures |b| == 4 * |dtcs|
  {
    if dtcs == [] then [] else Report(dtcs[..|dtcs| - 1]) + DtcBytes(dtcs[|dtcs| - 1])
  }

  predicate IsOdd(b: Byte) {
    b % 2 == 1
  }

  /** TesterPresent with the suppress-positive-response bit. */
  predicate Suppressed(req: Bytes) {
    |req| > 1 && req[0] == 0x3E && req[1] >= 0x80
  }

  function Handle(e: EcuState, req: Bytes): (EcuState, Answer) {
    if req == [] then (e, Raises)
    else if e.injectNrc.Some? then (e.(injectNrc := None), Reply([0x7F, req[0], e.injectNrc.value]))
    else Serve(e, req)
  }

  function Serve(e: EcuState, req: Bytes): (EcuState, Answer)
    requires req != []
  {
    var sid := req[0];
    if sid == 0x10 then
      if |req| < 2 then (e, Reply([0x7F, sid, 0x13]))
      else (e.(session := req[1]), Reply([0x50, req[1], 0x00, 0x32, 0x01, 0xF4]))
    else if sid == 0x3E then
      (e, if Suppressed(req) then Silent else Reply([0x7E, 0x00]))
    else if sid == 0x19 then
      if |req| < 3 || req[1] != 0x02 then (e, Reply([0x7F, sid, 0x12]))
      else (e, Reply([0x59, 0x02, 0xFF] + Report(Select(e.dtcs, req[2]))))
    else if sid == 0x14 then (e, Reply([0x54]))
    else if sid == 0x27 then
      if |req| < 2 then (e, Reply([0x7F, sid, 0x13])) else SecurityAccess(e, req[1], req[2..])
    else (e, Reply([0x7F, sid, 0x11]))
  }

  function SecurityAccess(e: EcuState, level: Byte, key: Bytes): (EcuState, Answer) {
    if IsOdd(level) then (e.(pendingSeedLevel := Some(level)), Reply([0x67, level] + e.seed))
    else if e.pendingSeedLevel.None? then (e, Reply([0x7F, 0x27, 0x24]))
    else if key == TestKey(e.seed) then
      (e.(unlocked := true, pendingSeedLevel := None), Reply([0x67, level]))
    else (e, Reply([0x7F, 0x27, 0x35]))
  }

  function InjectNext(e: EcuState, nrc: Option<Byte>, pendingBefore: bool, drop: bool): EcuState {
    e.(injectNrc := nrc, injectPending := pendingBefore, injectDrop := drop)
  }

  // ---------------------------------------------------------------- bits

  type BitIndex = k: int | 0 <= k < 8

  function Weight(k: BitIndex): (w: nat)
    ensures w > 0
  {
    if k == 0 then 1 else if k == 1 then 2 else if k == 2 then 4 else if k == 3 then 8
    else if k == 4 then 16 else if k == 5 then 32 else if k == 6 then 64 else 128
  }

  /** Bit `k` of a byte, arithmetically. */
  predicate Bit(b: Byte, k: BitIndex) {
    (b / Weight(k)) % 2 == 1
  }

  lemma LowBits(b: Byte)
    ensures (b as bv8 & 1 != 0) <==> b % 2 == 1
    ensures (b as bv8 & 2 != 0) <==> (b / 2) % 2 == 1
    ensures (b as bv8 & 4 != 0) <==> (b / 4) % 2 == 1
    ensures (b as bv8 & 8 != 0) <==> (b / 8) % 2 == 1
  {}

  lemma HighBits(b: Byte)
    ensures (b as bv8 & 16 != 0) <==> (b / 16) % 2 == 1
    ensures (b as bv8 & 32 != 0) <==> (b / 32) % 2 == 1
    ensures (b as bv8 & 64 != 0) <==> (b / 64) % 2 == 1
    ensures (b as bv8 & 128 != 0) <==> (b / 128) % 2 == 1
  {}

  function BitMask(k: BitIndex): bv8 {
    if k == 0 then 1 else if k == 1 then 2 else if k == 2 then 4 else if k == 3 then 8
    else if k == 4 then 16 else if k == 5 then 32 else if k == 6 then 64 else 128
  }

  lemma LowIsMasked(b: Byte, k: BitIndex)
    requires k < 4
    ensures Bit(b, k) <==> b as bv8 & BitMask(k) != 0
  {
    LowBits(b);
  }

  lemma HighIsMasked(b: Byte, k: BitIndex)
    requires k >= 4
    ensures Bit(b, k) <==> b as bv8 & BitMask(k) != 0
  {
    HighBits(b);
  }

  lemma BitIsMasked(b: Byte, k: BitIndex)
    ensures Bit(b, k) <==> b as bv8 & BitMask(k) != 0
  {
    hide Bit, BitMask;
    if k < 4 {
      LowIsMasked(b, k);
    } else {
      HighIsMasked(b, k);
    }
  }

  lemma MaskInCommon(x: bv8, y: bv8) returns (k: BitIndex)
    requires x & y != 0
    ensures x & BitMask(k) != 0 && y & BitMask(k) != 0
  {
    k := if x & y & 1 != 0 then 0 else if x & y & 2 != 0 then 1
         else if x & y & 4 != 0 then 2 else if x & y & 8 != 0 then 3
         else if x & y & 16 != 0 then 4 else if x & y & 32 != 0 then 5
         else if x & y & 64 != 0 then 6 else 7;
  }

  lemma CommonMask(x: bv8, y: bv8, m: bv8)
    requires m == 1 || m == 2 || m == 4 || m == 8 || m == 16 || m == 32 || m == 64 || m == 128
    requires x & m != 0 && y & m != 0
    ensures x & y != 0
  {}

  predicate ShareBit(status: Byte, mask: Byte) {
    exists k: BitIndex :: Bit(status, k) && Bit(mask, k)
  }

  lemma SelectedShares(status: Byte, mask: Byte)
    requires Selected(status, mask)
    ensures ShareBit(status, mask)
  {
    hide Bit, BitMask;
    var k := MaskInCommon(status as bv8, mask as bv8);
    BitIsMasked(status, k);
    BitIsMasked(mask, k);
  }

  lemma SharedIsSelected(status: Byte, mask: Byte, k: BitIndex)
    requires Bit(status, k) && Bit(mask, k)
    ensures Selected(status, mask)
  {
    hide Bit, BitMask;
    BitIsMasked(status, k);
    BitIsMasked(mask, k);
    MaskIsPower(k);
    CommonMask(status as bv8, mask as bv8, BitMask(k));
  }

  /** A status is selected exactly when some bit is set in both it and the mask. */
  lemma SelectedIff(status: Byte, mask: Byte)
    ensures Selected(status, mask) <==> ShareBit(status, mask)
  {
    hide Bit, Selected;
    if Selected(status, mask) {
      SelectedShares(status, mask);
    }
    if k: BitIndex :| Bit(status, k) && Bit(mask, k) {
      SharedIsSelected(status, mask, k);
    }
  }

  lemma MaskIsPower(k: BitIndex)
    ensures var m := BitMask(k);
            m == 1 || m == 2 || m == 4 || m == 8 || m == 16 || m == 32 || m == 64 || m == 128
  {}

  lemma XorFlips(x: bv8)
    ensures (x ^ 0x5A) & 1 == x & 1 && (x ^ 0x5A) & 4 == x & 4
    ensures (x ^ 0x5A) & 32 == x & 32 && (x ^ 0x5A) & 128 == x & 128
    ensures ((x ^ 0x5A) & 2 != 0) != (x & 2 != 0) && ((x ^ 0x5A) & 8 != 0) != (x & 8 != 0)
    ensures ((x ^ 0x5A) & 16 != 0) != (x & 16 != 0) && ((x ^ 0x5A) & 64 != 0) != (x & 64 != 0)
  {}

  /** A key byte is its seed byte with bits 1, 3, 4 and 6 flipped. */
  lemma KeyFlipsBits(seed: Bytes, i: nat, k: BitIndex)
    requires i < |seed|
    ensures |TestKey(seed)| == |seed|
    ensures Bit(TestKey(seed)[i], k) <==> (Bit(seed[i], k) != (k == 1 || k == 3 || k == 4 || k == 6))
  {
    hide Bit;
    BitIsMasked(seed[i], k);
    BitIsMasked(Xor5A(seed[i]), k);
    XorFlips(seed[i] as bv8);
    XorAsBits(seed[i]);
  }

  lemma ThereAndBack(x: bv8)
    ensures (x as int) as bv8 == x
  {}

  lemma XorAsBits(b: Byte)
    ensures Xor5A(b) as bv8 == b as bv8 ^ 0x5A
  {
    ThereAndBack(b as bv8 ^ 0x5A);
  }

  // ---------------------------------------------------------------- what a mask selects

  /** `sel` is exactly the entries that share a bit with the mask, each once and in table order. */
  ghost predicate IsSelection(sel: seq<(int, Byte)>, dtcs: seq<(int, Byte)>, mask: Byte) {
    exists at: seq<nat> :: SelectsAt(sel, dtcs, mask, at)
  }

  predicate SelectsAt(sel: seq<(int, Byte)>, dtcs: seq<(int, Byte)>, mask: Byte, at: seq<nat>) {
    && |at| == |sel|
    && (forall i, j :: 0 <= i < j < |at| ==> at[i] < at[j])
    && (forall i :: 0 <= i < |at| ==> at[i] < |dtcs| && sel[i] == dtcs[at[i]])
    && (forall k :: 0 <= k < |dtcs| ==> (k in at <==> ShareBit(dtcs[k].1, mask)))
  }

  lemma SelectMore(sel: seq<(int, Byte)>, front: seq<(int, Byte)>, last: (int, Byte), mask: Byte, at: seq<nat>)
    requires SelectsAt(sel, front, mask, at)
    ensures if ShareBit(last.1, mask) then SelectsAt(sel + [last], front + [last], mask, at + [|front|])
            else SelectsAt(sel, front + [last], mask, at)
  {
    hide ShareBit;
    forall k | 0 <= k < |front|
      ensures k in at <==> k in at + [|front|]
    {}
  }

  lemma {:induction false} SelectIsSelection(dtcs: seq<(int, Byte)>, mask: Byte) returns (at: seq<nat>)
    ensures SelectsAt(Select(dtcs, mask), dtcs, mask, at)
    ensures IsSelection(Select(dtcs, mask), dtcs, mask)
    decreases |dtcs|
  {
    hide ShareBit, Selected, SelectsAt;
    if dtcs == [] {
      at := [];
      NothingSelected(mask);
    } else {
      var n := |dtcs| - 1;
      at := SelectIsSelection(dtcs[..n], mask);
      SelectedIff(dtcs[n].1, mask);
      SelectMore(Select(dtcs[..n], mask), dtcs[..n], dtcs[n], mask, at);
      assert dtcs[..n] + [dtcs[n]] == dtcs;
      assert Select(dtcs[..n], mask) + [] == Select(dtcs[..n], mask);
      if Selected(dtcs[n].1, mask) {
        at := at + [n];
      }
    }
  }

  lemma NothingSelected(mask: Byte)
    ensures SelectsAt([], [], mask, [])
  {}

  // ---------------------------------------------------------------- the class

  class Ecu {
    var session: Byte
    var unlocked: bool
    var pendingSeedLevel: Option<Byte>
    var dtcs: seq<(int, Byte)>
    var seed: Bytes
    var injectNrc: Option<Byte>
    var injectPending: bool
    var injectDrop: bool

    function State(): EcuState
      reads this
    {
      EcuState(session, unlocked, pendingSeedLevel, dtcs, seed, injectNrc, injectPending, injectDrop)
    }

    constructor (dtcs: seq<(int, Byte)>, seed: Bytes)
      ensures State() == Fresh(dtcs, seed)
    {
      this.session, this.unlocked, this.pendingSeedLevel := 0x01, false, None;
      this.dtcs, this.seed := dtcs, seed;
      this.injectNrc, this.injectPending, this.injectDrop := None, false, false;
    }

    method Inject(nrc: Option<Byte>, pendingBefore: bool, drop: bool)
      modifies this
      ensures State() == InjectNext(old(State()), nrc, pendingBefore, drop)
    {
      injectNrc, injectPending, injectDrop := nrc, pendingBefore, drop;
    }

    method ConsumePendingBefore() returns (armed: bool)
      modifies this`injectPending
      ensures armed == old(injectPending) && !injectPending
    {
      armed := injectPending;
      injectPending := false;
    }

    method ConsumeDrop() returns (armed: bool)
      modifies this`injectDrop
      ensures armed == old(injectDrop) && !injectDrop
    {
      armed := injectDrop;
      injectDrop := false;
    }

    method ConsumeNrc() returns (nrc: Option<Byte>)
      modifies this`injectNrc
      ensures nrc == old(injectNrc) && injectNrc == None
    {
      nrc := injectNrc;
      injectNrc := None;
    }

    method HandleRequest(req: Bytes) returns (a: Answer)
      modifies this
      ensures (State(), a) == Handle(old(State()), req)
    {
      if req == [] {
        return Raises;
      }
      var sid := req[0];
      var injected := ConsumeNrc();
      if injected.Some? {
        return Reply([0x7F, sid, injected.value]);
      }
      if sid == 0x10 {
        if |req| < 2 {
          return Reply([0x7F, sid, 0x13]);
        }
        session := req[1];
        return Reply([0x50, req[1], 0x00, 0x32, 0x01, 0xF4]);
      }
      if sid == 0x3E {
        if |req| > 1 && req[1] >= 0x80 {
          return Silent;
        }
        return Reply([0x7E, 0x00]);
      }
      if sid == 0x19 {
        if |req| < 3 || req[1] != 0x02 {
          return Reply([0x7F, sid, 0x12]);
        }
        var out := ReportByMask(req[2]);
        return Reply(out);
      }
      if sid == 0x14 {
        return Reply([0x54]);
      }
      if sid == 0x27 {
        if |req| < 2 {
          return Reply([0x7F, sid, 0x13]);
        }
        a := Unlock(req[1], req[2..]);
        return;
      }
      return Reply([0x7F, sid, 0x11]);
    }

    /** The table loop of service 19 02. */
    method ReportByMask(mask: Byte) returns (out: Bytes)
      ensures out == [0x59, 0x02, 0xFF] + Report(Select(dtcs, mask))
    {
      hide Selected, DtcBytes;
      out := [0x59, 0x02, 0xFF];
      for k := 0 to |dtcs|
        invariant out == [0x59, 0x02, 0xFF] + Report(Select(dtcs[..k], mask))
      {
        var entry := dtcs[k];
        var before := Select(dtcs[..k], mask);
        assert dtcs[..k + 1][..k] == dtcs[..k];
        if Selected(entry.1, mask) {
          assert (before + [entry])[..|before|] == before;
          out := out + DtcBytes(entry);
        } else {
          assert before + [] == before;
        }
      }
      assert dtcs[..|dtcs|] == dtcs;
    }

    method Unlock(level: Byte, key: Bytes) returns (a: Answer)
      modifies this
      ensures (State(), a) == SecurityAccess(old(State()), level, key)
    {
      if level % 2 == 1 {
        pendingSeedLevel := Some(level);
        return Reply([0x67, level] + seed);
      }
      if pendingSeedLevel.None? {
        return Reply([0x7F, 0x27, 0x24]);
      }
      if key == TestKey(seed) {
        unlocked, pendingSeedLevel := true, None;
        return Reply([0x67, level]);
      }
      return Reply([0x7F, 0x27, 0x35]);
    }
  }

  function Fresh(dtcs: seq<(int, Byte)>, seed: Bytes): EcuState {
    EcuState(0x01, false, None, dtcs, seed, None, false, false)
  }

  // ---------------------------------------------------------------- seed and key

  predicate NothingInjected(e: EcuState) {
    e.injectNrc.None? && !e.injectPending && !e.injectDrop
  }

  lemma SeedThenKey(e: EcuState, level: Byte)
    requires NothingInjected(e) && IsOdd(level) && level < 0xFF
    ensures var seeded := e.(pendingSeedLevel := Some(level));
            && Handle(e, [0x27, level]) == (seeded, Reply([0x67, level] + e.seed))
            && ([0x67, level] + e.seed)[2..] == e.seed
            && Handle(seeded, [0x27, level + 1] + TestKey(e.seed))
               == (e.(unlocked := true, pendingSeedLevel := None), Reply([0x67, level + 1]))
  {
    var req := [0x27, level + 1] + TestKey(e.seed);
    assert req[2..] == TestKey(e.seed);
  }

  lemma EvenLevelIsRefused(e: EcuState, level: Byte)
    requires NothingInjected(e) && !IsOdd(level) && e.seed != []
    ensures Handle(e, [0x27, level])
            == (e, Reply([0x7F, 0x27, if e.pendingSeedLevel.None? then 0x24 else 0x35]))
  {
    assert [0x27, level][2..] == [];
    assert |TestKey(e.seed)| > 0;
  }

  // ---------------------------------------------------------------- which request gets which answer

  const SERVICES: set<Byte> := {0x10, 0x14, 0x19, 0x27, 0x3E}

  predicate Refused(a: Answer, sid: Byte, nrc: Byte) {
    a.Reply? && |a.rsp| == 3 && a.rsp[0] == 0x7F && a.rsp[1] == sid && a.rsp[2] == nrc
  }

  /** A negative answer tells exactly what was wrong with the request. */
  lemma RefusalsTellWhy(e: EcuState, req: Bytes)
    requires req != [] && e.injectNrc.None?
    ensures var a, sid := Handle(e, req).1, req[0];
            var keySent := sid == 0x27 && |req| >= 2 && req[1] % 2 == 0;
            && (Refused(a, sid, 0x11) <==> sid !in SERVICES)
            && (Refused(a, sid, 0x12) <==> sid == 0x19 && (|req| < 3 || req[1] != 2))
            && (Refused(a, sid, 0x13) <==> (sid == 0x10 || sid == 0x27) && |req| < 2)
            && (Refused(a, sid, 0x24) <==> keySent && e.pendingSeedLevel.None?)
            && (Refused(a, sid, 0x35) <==> keySent && e.pendingSeedLevel.Some? && req[2..] != TestKey(e.seed))
  {
    hide TestKey;
  }

  /** What a request gets that is neither refused nor a SecurityAccess, and what it does to the ECU. */
  lemma AcceptedAnswers(e: EcuState, req: Bytes)
    requires req != [] && e.injectNrc.None?
    ensures var (after, a) := Handle(e, req);
            && (a == Silent <==> req[0] == 0x3E && |req| > 1 && Bit(req[1], 7))
            && (req[0] == 0x3E && a != Silent ==> a == Reply([0x7E, 0x00]))
            && (req[0] == 0x10 && |req| >= 2 ==> a == Reply([0x50, req[1], 0x00, 0x32, 0x01, 0xF4]))
            && (req[0] == 0x14 ==> a == Reply([0x54]))
            && (req[0] == 0x19 && |req| >= 3 && req[1] == 2 ==>
                  exists sel :: IsSelection(sel, e.dtcs, req[2]) && a == Reply([0x59, 0x02, 0xFF] + Report(sel)))
            && (req[0] != 0x27 ==> after == if req[0] == 0x10 && |req| >= 2 then e.(session := req[1]) else e)
  {
    hide Report, Select, IsSelection, TestKey, Bit;
    if |req| > 1 {
      TopBit(req[1]);
    }
    if req[0] == 0x19 && |req| >= 3 {
      var at := SelectIsSelection(e.dtcs, req[2]);
      assert IsSelection(Select(e.dtcs, req[2]), e.dtcs, req[2]);
    }
  }

  lemma TopBit(b: Byte)
    ensures Bit(b, 7) <==> b >= 128
  {
  }

  /** An empty request raises and leaves the ECU alone, armed injections included. */
  lemma EmptyRequestRaises(e: EcuState)
    ensures Handle(e, []) == (e, Raises)
  {}

  // ---------------------------------------------------------------- histories

  datatype Event =
    | Injected(nrc: Option<Byte>, pendingBefore: bool, drop: bool)
    | Request(req: Bytes)

  function Step(e: EcuState, ev: Event): EcuState {
    match ev
    case Injected(nrc, pendingBefore, drop) => InjectNext(e, nrc, pendingBefore, drop)
    case Request(req) => Handle(e, req).0
  }

  function Run(e: EcuState, evs: seq<Event>): EcuState {
    if evs == [] then e else Step(Run(e, evs[..|evs| - 1]), evs[|evs| - 1])
  }

  /** Event `i` is a SecurityAccess request of at least two bytes that no injected NRC consumes. */
  predicate Served(e: EcuState, evs: seq<Event>, i: nat)
    requires i < |evs|
  {
    && evs[i].Request?
    && |evs[i].req| >= 2 && evs[i].req[0] == 0x27
    && Run(e, evs[..i]).injectNrc.None?
  }

  predicate SeedRequested(e: EcuState, evs: seq<Event>, i: nat)
    requires i < |evs|
  {
    Served(e, evs, i) && IsOdd(evs[i].req[1])
  }

  predicate RightKeySent(e: EcuState, evs: seq<Event>, i: nat)
    requires i < |evs|
  {
    Served(e, evs, i) && !IsOdd(evs[i].req[1]) && evs[i].req[2..] == TestKey(e.seed)
  }

  /** Some served seed request is followed by a served key request with the right key. */
  predicate Unlocking(e: EcuState, evs: seq<Event>) {
    exists i, j :: 0 <= i < j < |evs| && SeedRequested(e, evs, i) && RightKeySent(e, evs, j)
  }

  predicate SeedAsked(e: EcuState, evs: seq<Event>) {
    exists i :: 0 <= i < |evs| && SeedRequested(e, evs, i)
  }

  lemma ExtendHistory(e: EcuState, evs: seq<Event>, i: nat)
    requires i + 1 < |evs|
    ensures var front := evs[..|evs| - 1];
            && (SeedRequested(e, evs, i) <==> SeedRequested(e, front, i))
            && (RightKeySent(e, evs, i) <==> RightKeySent(e, front, i))
  {
    assert evs[..|evs| - 1][..i] == evs[..i];
  }

  /** A longer history adds exactly the witnesses that end at its last event. */
  lemma LastEvent(e: EcuState, evs: seq<Event>)
    requires evs != []
    ensures var front, last := evs[..|evs| - 1], |evs| - 1;
            && (SeedAsked(e, evs) <==> SeedAsked(e, front) || SeedRequested(e, evs, last))
            && (Unlocking(e, evs) <==> Unlocking(e, front) || (SeedAsked(e, front) && RightKeySent(e, evs, last)))
  {
    var front, last := evs[..|evs| - 1], |evs| - 1;
    forall i: nat | i < last
      ensures SeedRequested(e, evs, i) <==> SeedRequested(e, front, i)
      ensures RightKeySent(e, evs, i) <==> RightKeySent(e, front, i)
    {
      ExtendHistory(e, evs, i);
    }
  }

  /** One event changes the security state only as a served seed or key request does. */
  lemma SecurityStep(s: EcuState, ev: Event)
    ensures var t := Step(s, ev);
            var served := ev.Request? && |ev.req| >= 2 && ev.req[0] == 0x27 && s.injectNrc.None?;
            var asked := served && IsOdd(ev.req[1]);
            var keyed := served && !IsOdd(ev.req[1]) && ev.req[2..] == TestKey(s.seed);
            && t.seed == s.seed && t.dtcs == s.dtcs
            && t.unlocked == (s.unlocked || (keyed && s.pendingSeedLevel.Some?))
            && t.pendingSeedLevel == (if asked then Some(ev.req[1]) else if keyed then None else s.pendingSeedLevel)
  {}

  /** What every history keeps about the security state. */
  lemma {:induction false} SecurityInvariant(e: EcuState, evs: seq<Event>)
    requires !e.unlocked && e.pendingSeedLevel.None?
    ensures var s := Run(e, evs);
            && s.seed == e.seed && s.dtcs == e.dtcs
            && (s.unlocked <==> Unlocking(e, evs))
            && (s.pendingSeedLevel.Some? ==> IsOdd(s.pendingSeedLevel.value))
            && (s.pendingSeedLevel.Some? ==> SeedAsked(e, evs))
            && (SeedAsked(e, evs) && s.pendingSeedLevel.None? ==> s.unlocked)
    decreases |evs|
  {
    if evs != [] {
      SecurityInvariant(e, evs[..|evs| - 1]);
      LastEvent(e, evs);
      SecurityStep(Run(e, evs[..|evs| - 1]), evs[|evs| - 1]);
    }
  }

  /**
   A fresh ECU is unlocked exactly when some odd-level SecurityAccess request was later followed by
   an even-level one with the key `SEED xor 5A`, neither taken by an injected NRC.
   */
  lemma UnlockCharacterisation(dtcs: seq<(int, Byte)>, seed: Bytes, evs: seq<Event>)
    ensures var e := Fresh(dtcs, seed);
            && (Run(e, evs).unlocked <==> Unlocking(e, evs))
            && (Run(e, evs).pendingSeedLevel.Some? ==> IsOdd(Run(e, evs).pendingSeedLevel.value))
  {
    SecurityInvariant(Fresh(dtcs, seed), evs);
  }

  /** Event `i` changes the session: a DiagnosticSessionControl of at least two bytes, not consumed by an NRC. */
  predicate SessionServed(e: EcuState, evs: seq<Event>, i: nat)
    requires i < |evs|
  {
    && evs[i].Request?
    && |evs[i].req| >= 2 && evs[i].req[0] == 0x10
    && Run(e, evs[..i]).injectNrc.None?
  }

  predicate IsLastSession(e: EcuState, evs: seq<Event>, i: nat)
    requires i < |evs|
  {
    SessionServed(e, evs, i) && forall j :: i < j < |evs| ==> !SessionServed(e, evs, j)
  }

  lemma SessionStep(s: EcuState, ev: Event)
    ensures Step(s, ev).session
         == if ev.Request? && |ev.req| >= 2 && ev.req[0] == 0x10 && s.injectNrc.None? then ev.req[1] else s.session
  {
    hide TestKey, Report, Select;
  }

  /** After any history the session is the one served last, or the default session 01 if none was. */
  lemma {:induction false} SessionIsLastServed(dtcs: seq<(int, Byte)>, seed: Bytes, evs: seq<Event>)
    ensures var e := Fresh(dtcs, seed);
            var session := Run(e, evs).session;
            && (forall i :: 0 <= i < |evs| && IsLastSession(e, evs, i) ==> session == evs[i].req[1])
            && ((forall i :: 0 <= i < |evs| ==> !SessionServed(e, evs, i)) ==> session == 1)
    decreases |evs|
  {
    hide Step;
    var e, n := Fresh(dtcs, seed), |evs| - 1;
    var session := Run(e, evs).session;
    if evs != [] {
      var front := evs[..n];
      SessionIsLastServed(dtcs, seed, front);
      SessionStep(Run(e, front), evs[n]);
      assert Run(e, evs) == Step(Run(e, front), evs[n]);
      assert evs[..n] == front;
      var served := SessionServed(e, evs, n);
      assert session == if served then evs[n].req[1] else Run(e, front).session;
      forall i: nat | i < n
        ensures SessionServed(e, evs, i) <==> SessionServed(e, front, i)
      {
        assert front[..i] == evs[..i];
      }
      forall i | 0 <= i < |evs| && IsLastSession(e, evs, i)
        ensures session == evs[i].req[1]
      {
        if i < n {
          assert !served;
          assert IsLastSession(e, front, i);
        }
      }
    }
  }

  /** An injected NRC answers in place of the service and disarms itself, nothing else. */
  lemma InjectedNrcOnly(e: EcuState, req: Bytes)
    requires req != [] && e.injectNrc.Some?
    ensures Handle(e, req) == (e.(injectNrc := None), Reply([0x7F, req[0], e.injectNrc.value]))
    ensures Handle(Handle(e, req).0, req) == Serve(e.(injectNrc := None), req)
  {}

  /** Every answer is negative or carries the request's service id plus 40. */
  lemma AnswersFitTheirRequest(e: EcuState, req: Bytes)
    requires req != [] && Handle(e, req).1.Reply?
    ensures var rsp := Handle(e, req).1.rsp;
            && rsp != []
            && (rsp[0] == 0x7F ==> |rsp| == 3 && rsp[1] == req[0])
            && (rsp[0] != 0x7F ==> rsp[0] == req[0] + 0x40)
    ensures Handle(e, req).0.injectPending == e.injectPending && Handle(e, req).0.injectDrop == e.injectDrop
  {}
}
