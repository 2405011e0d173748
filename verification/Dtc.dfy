/**
 Decoding of ReadDTCInformation answers (protocol/dtc.py): `59 02 <mask> [<b2><b1><b0><status>]...`,
 section 11.3 of ISO 14229-1:2013.
 */
module Dtc {
  import opened Base
  import opened Text

  datatype Record = Record(code: string, status: Byte, b2: Byte, b1: Byte, b0: Byte)

  const LETTERS := "PCBU"

  /** The 22 low bits of a DTC. */
  function Rest(b2: Byte, b1: Byte, b0: Byte): nat {
    (b2 % 64) * 0x1_0000 + b1 * 0x100 + b0
  }

  /** `decode_dtc`: a letter (bits 23-22), a digit (bits 21-20) and at least four hexadecimal digits. */
  function DecodeDtc(b2: Byte, b1: Byte, b0: Byte): string {
    [LETTERS[b2 / 64]] + [DigitChar((b2 / 16) % 4)] + HexPad(Rest(b2, b1, b0), 4)
  }

  /** Printing a DTC loses nothing, although its length varies. */
  lemma DecodeDtcIsInjective(b2: Byte, b1: Byte, b0: Byte, c2: Byte, c1: Byte, c0: Byte)
    requires DecodeDtc(b2, b1, b0) == DecodeDtc(c2, c1, c0)
    ensures b2 == c2 && b1 == c1 && b0 == c0
  {
    var s, t := DecodeDtc(b2, b1, b0), DecodeDtc(c2, c1, c0);
    assert s[0] == LETTERS[b2 / 64] && t[0] == LETTERS[c2 / 64];
    assert s[2..] == HexPad(Rest(b2, b1, b0), 4) && t[2..] == HexPad(Rest(c2, c1, c0), 4);
    ParseHexPad(Rest(b2, b1, b0), 4);
    ParseHexPad(Rest(c2, c1, c0), 4);
    assert b2 / 64 == c2 / 64;
  }

  lemma HexWidth(n: nat)
    requires n < 0x100_0000
    ensures |HexPad(n, 4)| == if n < 0x1_0000 then 4 else if n < 0x10_0000 then 5 else 6
  {
    DigitCount(n);
  }

  /** The number of hexadecimal digits of a 24-bit value. */
  lemma DigitCount(n: nat)
    requires n < 0x100_0000
    ensures n < 0x1_0000 ==> |Digits(n, 16)| <= 4
    ensures 0x1_0000 <= n < 0x10_0000 ==> |Digits(n, 16)| == 5
    ensures 0x10_0000 <= n ==> |Digits(n, 16)| == 6
  {
    if n >= 0x1_0000 {
      var q := n / 16 / 16 / 16;
      DigitsUpTo(q);
      assert |Digits(n / 16 / 16, 16)| == |Digits(q, 16)| + 1;
      assert |Digits(n / 16, 16)| == |Digits(q, 16)| + 2;
    } else {
      var q := n / 16 / 16;
      DigitsUpTo(q);
      if n >= 256 {
        assert |Digits(n / 16, 16)| == |Digits(q, 16)| + 1;
      } else if n >= 16 {
        DigitsUpTo(n / 16);
      }
    }
  }

  lemma DigitsUpTo(n: nat)
    requires n < 0x1000
    ensures |Digits(n, 16)| == if n < 16 then 1 else if n < 256 then 2 else 3
  {
    if n >= 256 {
      assert |Digits(n / 16 / 16, 16)| == 1;
      assert |Digits(n / 16, 16)| == 2;
    } else if n >= 16 {
      assert |Digits(n / 16, 16)| == 1;
    }
  }

  /**
   The docstring promises four hexadecimal digits, six characters in all. That holds exactly when the low
   six bits of `b2` are zero; otherwise a code has seven or eight characters.
   */
  lemma CodeWidth(b2: Byte, b1: Byte, b0: Byte)
    ensures |DecodeDtc(b2, b1, b0)| == if b2 % 64 == 0 then 6 else if b2 % 64 < 16 then 7 else 8
  {
    HexWidth(Rest(b2, b1, b0));
  }

  /** What a code says: letter and digit from the top four bits, and the low 22 bits in hexadecimal. */
  lemma CodeReads(b2: Byte, b1: Byte, b0: Byte)
    ensures var code := DecodeDtc(b2, b1, b0);
            && |code| >= 6
            && code[0] == (if b2 < 64 then 'P' else if b2 < 128 then 'C' else if b2 < 192 then 'B' else 'U')
            && '0' <= code[1] <= '3' && DigitValue(code[1]) == (b2 % 64) / 16
            && ParseInt(code[2..], 16) == Some((b2 % 64) * 65536 + b1 * 256 + b0)
  {
    hide ParseInt, HexPad;
    ParseHexPad(Rest(b2, b1, b0), 4);
    HexWidth(Rest(b2, b1, b0));
    assert DecodeDtc(b2, b1, b0)[2..] == HexPad(Rest(b2, b1, b0), 4);
    SecondDigit(b2);
  }

  lemma SecondDigit(b2: Byte)
    ensures (b2 / 16) % 4 == (b2 % 64) / 16
    ensures '0' <= DigitChar((b2 / 16) % 4) <= '3'
  {}

  lemma CodeWidthWitness()
    ensures |DecodeDtc(0x10, 0x00, 0x00)| == 8
  {
    hide DecodeDtc;
    CodeWidth(0x10, 0x00, 0x00);
  }

  // ---------------------------------------------------------------- payloads

  function RecordAt(b: Bytes): Record
    requires |b| == 4
  {
    Record(DecodeDtc(b[0], b[1], b[2]), b[3], b[0], b[1], b[2])
  }

  function RecordBytes(r: Record): Bytes {
    [r.b2, r.b1, r.b0, r.status]
  }

  /** The records of a body whose length is a multiple of four. */
  function Records(body: Bytes): seq<Record>
    requires |body| % 4 == 0
  {
    if body == [] then []
    else Records(body[..|body| - 4]) + [RecordAt(body[|body| - 4..])]
  }

  function Serialise(rs: seq<Record>): (b: Bytes)
    ensures |b| == 4 * |rs|
  {
    if rs == [] then [] else Serialise(rs[..|rs| - 1]) + RecordBytes(rs[|rs| - 1])
  }

  function Payload(mask: Byte, rs: seq<Record>): Bytes {
    [0x59, 0x02, mask] + Serialise(rs)
  }

  predicate Accepted(payload: Bytes) {
    |payload| >= 3 && payload[0] == 0x59 && payload[1] == 0x02 && (|payload| - 3) % 4 == 0
  }

  /** `(availability mask, records)`; `None` is the `ValueError`. */
  function ParsePayload(payload: Bytes): Option<(Byte, seq<Record>)> {
    if Accepted(payload) then Some((payload[2], Records(payload[3..]))) else None
  }

  lemma RecordsSnoc(body: Bytes, i: nat)
    requires i % 4 == 0 && i + 4 <= |body|
    ensures Records(body[..i + 4]) == Records(body[..i]) + [RecordAt(body[i..i + 4])]
  {
    var b := body[..i + 4];
    assert b[..|b| - 4] == body[..i];
    assert b[|b| - 4..] == body[i..i + 4];
  }

  lemma NoRecords(body: Bytes)
    ensures Records(body[..0]) == []
  {}

  lemma WholeBody(body: Bytes)
    requires |body| % 4 == 0
    ensures body[..4 * (|body| / 4)] == body
  {}

  /** The stride-4 loop of `parse_read_dtc_payload`. */
  method ParseRecords(body: Bytes) returns (records: seq<Record>)
    requires |body| % 4 == 0
    ensures records == Records(body)
  {
    hide RecordAt, Records;
    NoRecords(body);
    records := [];
    for k := 0 to |body| / 4
      invariant records == Records(body[..4 * k])
    {
      RecordsSnoc(body, 4 * k);
      records := records + [RecordAt(body[4 * k..4 * k + 4])];
    }
    WholeBody(body);
  }

  /** `parse_read_dtc_payload`. */
  method ParseReadDtcPayload(payload: Bytes) returns (r: Option<(Byte, seq<Record>)>)
    ensures r == ParsePayload(payload)
  {
    if |payload| < 3 || payload[0] != 0x59 || payload[1] != 0x02 {
      return None;
    }
    if |payload[3..]| % 4 != 0 {
      return None;
    }
    var records := ParseRecords(payload[3..]);
    return Some((payload[2], records));
  }

  /** A record whose code is the one its bytes print as. */
  predicate Consistent(r: Record) {
    r.code == DecodeDtc(r.b2, r.b1, r.b0)
  }

  predicate AllConsistent(rs: seq<Record>) {
    forall i {:trigger Consistent(rs[i])} :: 0 <= i < |rs| ==> Consistent(rs[i])
  }

  lemma ConsistentParts(rs: seq<Record>)
    requires AllConsistent(rs) && rs != []
    ensures AllConsistent(rs[..|rs| - 1]) && Consistent(rs[|rs| - 1])
  {
    var front := rs[..|rs| - 1];
    forall i | 0 <= i < |front|
      ensures Consistent(front[i])
    {
      assert Consistent(rs[i]);
    }
  }

  lemma BytesOfRecord(b: Bytes)
    requires |b| == 4
    ensures RecordBytes(RecordAt(b)) == b
    ensures Consistent(RecordAt(b))
  {}

  lemma RecordRoundTrip(r: Record)
    requires Consistent(r)
    ensures RecordAt(RecordBytes(r)) == r
  {}

  lemma SerialiseSnoc(rs: seq<Record>, r: Record)
    ensures Serialise(rs + [r]) == Serialise(rs) + RecordBytes(r)
  {
    assert (rs + [r])[..|rs|] == rs;
  }

  lemma RecordsOfAppended(body: Bytes, last: Bytes)
    requires |body| % 4 == 0 && |last| == 4
    ensures Records(body + last) == Records(body) + [RecordAt(last)]
  {
    var b := body + last;
    assert b[..|b| - 4] == body;
    assert b[|b| - 4..] == last;
  }

  lemma SerialiseAppended(front: Bytes, last: Bytes)
    requires |front| % 4 == 0 && |last| == 4
    requires Serialise(Records(front)) == front
    ensures Serialise(Records(front + last)) == front + last
  {
    RecordsOfAppended(front, last);
    SerialiseSnoc(Records(front), RecordAt(last));
    BytesOfRecord(last);
  }

  lemma {:induction false} SerialiseRecords(body: Bytes)
    requires |body| % 4 == 0
    ensures Serialise(Records(body)) == body
    decreases |body|
  {
    if body != [] {
      var front, last := body[..|body| - 4], body[|body| - 4..];
      SerialiseRecords(front);
      SerialiseAppended(front, last);
      assert front + last == body;
    }
  }

  lemma {:induction false} RecordsAreConsistent(body: Bytes)
    requires |body| % 4 == 0
    ensures AllConsistent(Records(body))
    decreases |body|
  {
    if body != [] {
      RecordsAreConsistent(body[..|body| - 4]);
      BytesOfRecord(body[|body| - 4..]);
    }
  }

  lemma RecordsAppended(front: seq<Record>, last: Record)
    requires Records(Serialise(front)) == front && Consistent(last)
    ensures Records(Serialise(front + [last])) == front + [last]
  {
    hide DecodeDtc;
    SerialiseSnoc(front, last);
    RecordsOfAppended(Serialise(front), RecordBytes(last));
    RecordRoundTrip(last);
  }

  lemma {:induction false} RecordsSerialise(rs: seq<Record>)
    requires AllConsistent(rs)
    ensures Records(Serialise(rs)) == rs
    decreases |rs|
  {
    if rs != [] {
      var front, last := rs[..|rs| - 1], rs[|rs| - 1];
      ConsistentParts(rs);
      RecordsSerialise(front);
      RecordsAppended(front, last);
      assert front + [last] == rs;
    }
  }

  lemma HeaderOf(payload: Bytes)
    requires Accepted(payload)
    ensures payload == [0x59, 0x02, payload[2]] + payload[3..]
  {}

  lemma SerialiseParsed(payload: Bytes)
    requires Accepted(payload)
    ensures payload == Payload(payload[2], Records(payload[3..]))
  {
    HeaderOf(payload);
    SerialiseRecords(payload[3..]);
  }

  lemma HeaderThenBody(mask: Byte, body: Bytes)
    requires |body| % 4 == 0
    ensures Accepted([0x59, 0x02, mask] + body)
    ensures ([0x59, 0x02, mask] + body)[2] == mask && ([0x59, 0x02, mask] + body)[3..] == body
  {}

  lemma ParseParts(payload: Bytes, mask: Byte, body: Bytes, rs: seq<Record>)
    requires Accepted(payload) && payload[2] == mask && payload[3..] == body
    requires |body| % 4 == 0 && Records(body) == rs
    ensures ParsePayload(payload) == Some((mask, rs))
  {}

  lemma ParseSerialised(mask: Byte, rs: seq<Record>)
    requires AllConsistent(rs)
    ensures ParsePayload(Payload(mask, rs)) == Some((mask, rs))
  {
    var body := Serialise(rs);
    HeaderThenBody(mask, body);
    RecordsSerialise(rs);
    ParseParts(Payload(mask, rs), mask, body, rs);
  }

  /** Parsing is a bijection from the accepted payloads to masks and consistent record lists. */
  lemma ParseIsBijective(payload: Bytes, mask: Byte, rs: seq<Record>)
    requires AllConsistent(rs)
    ensures ParsePayload(payload) == Some((mask, rs)) <==> payload == Payload(mask, rs)
    ensures Accepted(payload) ==> AllConsistent(Records(payload[3..]))
  {
    if Accepted(payload) {
      SerialiseParsed(payload);
      RecordsAreConsistent(payload[3..]);
    }
    ParseSerialised(mask, rs);
  }

  /** Lists that print alike, code by code and status by status, are equal. */
  lemma SamePrintSameRecords(rs: seq<Record>, ss: seq<Record>)
    requires |rs| == |ss|
    requires AllConsistent(rs) && AllConsistent(ss)
    requires forall i :: 0 <= i < |rs| ==> rs[i].code == ss[i].code && rs[i].status == ss[i].status
    ensures rs == ss
  {
    assert forall i :: 0 <= i < |rs| ==> Consistent(rs[i]) && Consistent(ss[i]);
    forall i | 0 <= i < |rs|
      ensures rs[i] == ss[i]
    {
      DecodeDtcIsInjective(rs[i].b2, rs[i].b1, rs[i].b0, ss[i].b2, ss[i].b1, ss[i].b0);
    }
  }

  /** What is shown to a user determines the payload: the mask and, per record, code and status. */
  lemma PrintedListDeterminesPayload(p: Bytes, q: Bytes)
    requires ParsePayload(p).Some? && ParsePayload(q).Some?
    requires var (m, rs) := ParsePayload(p).value;
             var (n, ss) := ParsePayload(q).value;
             && m == n && |rs| == |ss|
             && forall i :: 0 <= i < |rs| ==> rs[i].code == ss[i].code && rs[i].status == ss[i].status
    ensures p == q
  {
    var rs, ss := Records(p[3..]), Records(q[3..]);
    RecordsAreConsistent(p[3..]);
    RecordsAreConsistent(q[3..]);
    SamePrintSameRecords(rs, ss);
    SerialiseParsed(p);
    SerialiseParsed(q);
  }
}
