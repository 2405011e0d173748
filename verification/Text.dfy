/**
 The text primitives both codecs are built from: whitespace tokenising, joining, ASCII upper-casing,
 and decimal or hexadecimal numerals.
 */
module Text {
  import opened Base

  // ---------------------------------------------------------------- whitespace

  /** The characters at which Python's `str.split()` and `str.strip()` cut. */
  predicate IsSpace(c: char) {
    || '\t' <= c <= '\r'
    || '\U{1c}' <= c <= ' '
    || c == '\U{85}'
    || IsWideSpace(c)
  }

  /** The non-ASCII white space Python and Dart agree on. */
  predicate IsWideSpace(c: char) {
    || c == '\U{a0}'
    || c == '\U{1680}'
    || '\U{2000}' <= c <= '\U{200a}'
    || c == '\U{2028}'
    || c == '\U{2029}'
    || c == '\U{202f}'
    || c == '\U{205f}'
    || c == '\U{3000}'
  }

  /** A non-empty word without white space. */
  predicate IsToken(t: string) {
    t != "" && forall i :: 0 <= i < |t| ==> !IsSpace(t[i])
  }

  predicate AreTokens(ts: seq<string>) {
    forall i :: 0 <= i < |ts| ==> IsToken(ts[i])
  }

  /** `s.split()`: the maximal runs of non-space characters, in order. */
  function Split(s: string): (ts: seq<string>)
    ensures AreTokens(ts)
    ensures s != "" && !IsSpace(s[0]) ==> ts != []
  {
    if s == "" then []
    else
      var rest := Split(s[1..]);
      if IsSpace(s[0]) then rest
      else if |s| == 1 || IsSpace(s[1]) then [[s[0]]] + rest
      else [[s[0]] + rest[0]] + rest[1..]
  }

  /** `" ".join(ts)`. */
  function Join(ts: seq<string>): string {
    if ts == [] then ""
    else if |ts| == 1 then ts[0]
    else ts[0] + " " + Join(ts[1..])
  }

  /** A space cuts a text in two independent halves. */
  lemma {:induction false} SplitAtSpace(a: string, c: char, b: string)
    requires IsSpace(c)
    ensures Split(a + [c] + b) == Split(a) + Split(b)
    decreases |a|
  {
    var s := a + [c] + b;
    if a == "" {
      assert s[1..] == b;
    } else {
      assert s[1..] == a[1..] + [c] + b;
      SplitAtSpace(a[1..], c, b);
    }
  }

  /** Blanks, tabs and line ends separate tokens, singly or in any number. */
  lemma Separators(a: string, c: char, b: string)
    requires c in {' ', '\t', '\r', '\n'}
    ensures Split(a + [c] + b) == Split(a) + Split(b)
  {
    SplitAtSpace(a, c, b);
  }

  lemma SplitTrailingSpace(s: string, c: char)
    requires IsSpace(c)
    ensures Split(s + [c]) == Split(s)
  {
    SplitAtSpace(s, c, "");
    assert s + [c] + "" == s + [c];
  }

  lemma {:induction false} SplitToken(t: string)
    requires IsToken(t)
    ensures Split(t) == [t]
    decreases |t|
  {
    assert [t[0]] + t[1..] == t;
    if |t| == 1 {
      assert t == [t[0]];
      assert Split(t) == [[t[0]]] + Split("");
    } else {
      assert forall i :: 0 <= i < |t| - 1 ==> t[1..][i] == t[i + 1];
      SplitToken(t[1..]);
    }
  }

  lemma SplitTokenThen(t: string, c: char, b: string)
    requires IsToken(t) && IsSpace(c)
    ensures Split(t + [c] + b) == [t] + Split(b)
  {
    SplitAtSpace(t, c, b);
    SplitToken(t);
  }

  /** Splitting undoes joining. */
  lemma {:induction false} SplitJoin(ts: seq<string>)
    requires AreTokens(ts)
    ensures Split(Join(ts)) == ts
    decreases |ts|
  {
    if |ts| == 1 {
      SplitToken(ts[0]);
    } else if |ts| > 1 {
      SplitJoin(ts[1..]);
      SplitTokenThen(ts[0], ' ', Join(ts[1..]));
      assert ts[0] + [' '] + Join(ts[1..]) == Join(ts);
    }
  }

  // ---------------------------------------------------------------- stripping

  /** `s.strip()`. */
  function Strip(s: string): string {
    StripLeft(StripRight(s))
  }

  function StripLeft(s: string): string {
    if s != "" && IsSpace(s[0]) then StripLeft(s[1..]) else s
  }

  function StripRight(s: string): string {
    if s != "" && IsSpace(s[|s| - 1]) then StripRight(s[..|s| - 1]) else s
  }

  /** `s.strip("\r\n")`. */
  function StripNewlines(s: string): string {
    StripNewlinesLeft(StripNewlinesRight(s))
  }

  function StripNewlinesLeft(s: string): string {
    if s != "" && s[0] in "\r\n" then StripNewlinesLeft(s[1..]) else s
  }

  function StripNewlinesRight(s: string): string {
    if s != "" && s[|s| - 1] in "\r\n" then StripNewlinesRight(s[..|s| - 1]) else s
  }

  lemma {:induction false} SplitStripRight(s: string)
    ensures Split(StripRight(s)) == Split(s)
    ensures |StripRight(s)| <= |s|
    decreases |s|
  {
    if s != "" && IsSpace(s[|s| - 1]) {
      var front := s[..|s| - 1];
      SplitStripRight(front);
      SplitTrailingSpace(front, s[|s| - 1]);
      assert front + [s[|s| - 1]] == s;
    }
  }

  lemma {:induction false} SplitStripLeft(s: string)
    ensures Split(StripLeft(s)) == Split(s)
    ensures |StripLeft(s)| <= |s|
    decreases |s|
  {
    if s != "" && IsSpace(s[0]) {
      SplitStripLeft(s[1..]);
    }
  }

  lemma SplitStrip(s: string)
    ensures Split(Strip(s)) == Split(s)
    ensures |Strip(s)| <= |s|
    ensures Strip(s) == "" <==> Split(s) == []
  {
    SplitStripRight(s);
    SplitStripLeft(StripRight(s));
    StripLeftHead(StripRight(s));
  }

  lemma {:induction false} StripLeftHead(s: string)
    ensures StripLeft(s) != "" ==> !IsSpace(StripLeft(s)[0])
    decreases |s|
  {
    if s != "" && IsSpace(s[0]) {
      StripLeftHead(s[1..]);
    }
  }

  lemma {:induction false} SplitStripNewlines(s: string)
    ensures Split(StripNewlines(s)) == Split(s)
  {
    SplitStripNewlinesRight(s);
    SplitStripNewlinesLeft(StripNewlinesRight(s));
  }

  lemma {:induction false} SplitStripNewlinesRight(s: string)
    ensures Split(StripNewlinesRight(s)) == Split(s)
    decreases |s|
  {
    if s != "" && s[|s| - 1] in "\r\n" {
      var front := s[..|s| - 1];
      SplitStripNewlinesRight(front);
      SplitTrailingSpace(front, s[|s| - 1]);
      assert front + [s[|s| - 1]] == s;
    }
  }

  lemma {:induction false} SplitStripNewlinesLeft(s: string)
    ensures Split(StripNewlinesLeft(s)) == Split(s)
    decreases |s|
  {
    if s != "" && s[0] in "\r\n" {
      SplitStripNewlinesLeft(s[1..]);
    }
  }

  // ---------------------------------------------------------------- upper case

  function UpperChar(c: char): char {
    if 'a' <= c <= 'z' then (c as int - 32) as char else c
  }

  /** `s.upper()` on ASCII text. */
  function Upper(s: string): (u: string)
    ensures |u| == |s|
  {
    seq(|s|, i requires 0 <= i < |s| => UpperChar(s[i]))
  }

  lemma UpperIsIdentity(s: string)
    requires forall i :: 0 <= i < |s| ==> !('a' <= s[i] <= 'z')
    ensures Upper(s) == s
  {
    assert forall i :: 0 <= i < |s| ==> Upper(s)[i] == s[i];
  }

  // ---------------------------------------------------------------- numerals

  type Radix = b: int | b == 10 || b == 16 witness 10

  function DigitChar(d: nat): (c: char)
    requires d < 16
    ensures DigitValue(c) == d && !IsSpace(c) && c != '+' && c != '-' && c != '='
    ensures d < 10 ==> '0' <= c <= '9'
  {
    if d < 10 then ('0' as int + d) as char else ('A' as int + d - 10) as char
  }

  /** The value of a hexadecimal digit of either case; 16 when `c` is no digit. */
  function DigitValue(c: char): (v: nat)
    ensures v < 16 ==> !IsSpace(c) && c != '+' && c != '-'
  {
    if '0' <= c <= '9' then c as int - '0' as int
    else if 'A' <= c <= 'F' then c as int - 'A' as int + 10
    else if 'a' <= c <= 'f' then c as int - 'a' as int + 10
    else 16
  }

  /** The canonical numeral of `n`: most significant digit first, no leading zero. */
  function Digits(n: nat, base: Radix): (s: string)
    ensures s != ""
  {
    if n < base then [DigitChar(n)] else Digits(n / base, base) + [DigitChar(n % base)]
  }

  predicate AreDigits(s: string, base: Radix) {
    s != "" && forall i :: 0 <= i < |s| ==> DigitValue(s[i]) < base
  }

  function ValueOf(s: string, base: Radix): nat
  {
    if s == "" then 0 else ValueOf(s[..|s| - 1], base) * base + DigitValue(s[|s| - 1])
  }

  /** `int(tok, base)`: an optional sign and digits; `None` is Python's ValueError. */
  function ParseInt(tok: string, base: Radix): Option<int> {
    if tok != "" && tok[0] == '-' then
      if AreDigits(tok[1..], base) then Some(0 - ValueOf(tok[1..], base)) else None
    else if tok != "" && tok[0] == '+' then
      if AreDigits(tok[1..], base) then Some(ValueOf(tok[1..], base)) else None
    else if AreDigits(tok, base) then Some(ValueOf(tok, base))
    else None
  }

  /** `str(n)`. */
  function Dec(n: int): string {
    if n < 0 then "-" + Digits(-n, 10) else Digits(n, 10)
  }

  /** `f"{n:0<width>X}"` for a non-negative `n`. */
  function HexPad(n: nat, width: nat): string {
    Zeros(width - |Digits(n, 16)|) + Digits(n, 16)
  }

  function Zeros(k: int): (z: string)
    ensures |z| == if k < 0 then 0 else k
    ensures forall i :: 0 <= i < |z| ==> z[i] == '0'
  {
    if k <= 0 then "" else ['0'] + Zeros(k - 1)
  }

  lemma {:induction false} DigitsAreDigits(n: nat, base: Radix)
    ensures AreDigits(Digits(n, base), base)
    ensures ValueOf(Digits(n, base), base) == n
    ensures IsToken(Digits(n, base))
    ensures forall i :: 0 <= i < |Digits(n, base)| ==> Digits(n, base)[i] != '='
    decreases n
  {
    if n >= base {
      var front := Digits(n / base, base);
      DigitsAreDigits(n / base, base);
      assert Digits(n, base)[..|front|] == front;
    } else {
      assert Digits(n, base)[..0] == "";
    }
  }

  lemma ParseUnsigned(s: string, base: Radix)
    requires AreDigits(s, base)
    ensures ParseInt(s, base) == Some(ValueOf(s, base))
    ensures IsToken(s)
  {
    assert DigitValue(s[0]) < base;
    assert forall i :: 0 <= i < |s| ==> DigitValue(s[i]) < base;
  }

  lemma ParseSigned(s: string, base: Radix)
    requires AreDigits(s, base)
    ensures ParseInt("-" + s, base) == Some(0 - ValueOf(s, base))
    ensures IsToken("-" + s)
  {
    var tok := "-" + s;
    assert tok[1..] == s;
    ParseUnsigned(s, base);
    assert forall i :: 0 < i < |tok| ==> tok[i] == s[i - 1];
  }

  /** Reading back a decimal numeral. */
  lemma ParseDec(n: int)
    ensures ParseInt(Dec(n), 10) == Some(n)
    ensures IsToken(Dec(n))
  {
    var digits := Digits(if n < 0 then -n else n, 10);
    DigitsAreDigits(if n < 0 then -n else n, 10);
    ParseUnsigned(digits, 10);
    if n < 0 {
      ParseSigned(digits, 10);
    }
  }

  lemma {:induction false} ValueOfLeadingZero(s: string, base: Radix)
    ensures ValueOf(['0'] + s, base) == ValueOf(s, base)
    decreases |s|
  {
    var z := ['0'] + s;
    if s == "" {
      assert z[..0] == "";
    } else {
      ValueOfLeadingZero(s[..|s| - 1], base);
      assert z[..|z| - 1] == ['0'] + s[..|s| - 1];
    }
  }

  lemma {:induction false} ValueOfZeros(k: int, s: string, base: Radix)
    ensures ValueOf(Zeros(k) + s, base) == ValueOf(s, base)
    decreases k
  {
    if k <= 0 {
      assert Zeros(k) + s == s;
    } else {
      ValueOfZeros(k - 1, s, base);
      ValueOfLeadingZero(Zeros(k - 1) + s, base);
      assert Zeros(k) + s == ['0'] + (Zeros(k - 1) + s);
    }
  }

  /** Reading back a zero-padded hexadecimal numeral. */
  lemma ParseHexPad(n: nat, width: nat)
    ensures ParseInt(HexPad(n, width), 16) == Some(n)
    ensures ValueOf(HexPad(n, width), 16) == n
    ensures IsToken(HexPad(n, width))
    ensures AreDigits(HexPad(n, width), 16)
  {
    DigitsAreDigits(n, 16);
    ValueOfZeros(width - |Digits(n, 16)|, Digits(n, 16), 16);
    ZerosThenDigits(width - |Digits(n, 16)|, Digits(n, 16));
    ParseUnsigned(HexPad(n, width), 16);
  }

  lemma ZerosThenDigits(k: int, s: string)
    requires AreDigits(s, 16)
    ensures AreDigits(Zeros(k) + s, 16)
  {
    var z := Zeros(k);
    forall i | 0 <= i < |z + s|
      ensures DigitValue((z + s)[i]) < 16
    {
      assert DigitValue('0') == 0;
      if i >= |z| {
        assert (z + s)[i] == s[i - |z|];
      }
    }
  }

  /** A byte takes exactly two hexadecimal digits. */
  lemma HexPadByte(b: Byte)
    ensures HexPad(b, 2) == [DigitChar(b / 16), DigitChar(b % 16)]
  {
    if b < 16 {
      assert Zeros(1) == ['0'] + Zeros(0) == ['0'];
      assert DigitChar(0) == '0';
    } else {
      assert Digits(b / 16, 16) == [DigitChar(b / 16)];
    }
  }

  /** A canonical numeral is never longer than any numeral of the same value. */
  lemma {:induction false} DigitsAreShortest(s: string, base: Radix)
    requires AreDigits(s, base)
    ensures |Digits(ValueOf(s, base), base)| <= |s|
    decreases |s|
  {
    var front, last := s[..|s| - 1], DigitValue(s[|s| - 1]);
    if front != "" {
      DigitsAreShortest(front, base);
      var v := ValueOf(front, base);
      if base == 10 {
        assert (v * 10 + last) / 10 == v;
      } else {
        assert (v * 16 + last) / 16 == v;
      }
    }
  }

  // ---------------------------------------------------------------- letter case

  function UpperAll(ts: seq<string>): (us: seq<string>)
    ensures |us| == |ts|
  {
    seq(|ts|, i requires 0 <= i < |ts| => Upper(ts[i]))
  }

  lemma UpperKeepsValue(c: char)
    ensures DigitValue(UpperChar(c)) == DigitValue(c)
    ensures UpperChar(c) == '-' <==> c == '-'
    ensures UpperChar(c) == '+' <==> c == '+'
    ensures UpperChar(UpperChar(c)) == UpperChar(c)
  {}

  lemma UpperIsStable(s: string)
    ensures Upper(Upper(s)) == Upper(s)
  {
    hide UpperChar;
    forall i | 0 <= i < |s|
      ensures Upper(Upper(s))[i] == Upper(s)[i]
    {
      UpperKeepsValue(s[i]);
    }
    assert Upper(Upper(s)) == Upper(s);
  }

  lemma UpperDigits(s: string, base: Radix)
    ensures AreDigits(Upper(s), base) <==> AreDigits(s, base)
  {
    hide UpperChar, DigitValue;
    forall i | 0 <= i < |s|
      ensures DigitValue(Upper(s)[i]) == DigitValue(s[i])
    {
      UpperKeepsValue(s[i]);
    }
  }

  lemma {:induction false} UpperValue(s: string, base: Radix)
    ensures ValueOf(Upper(s), base) == ValueOf(s, base)
    decreases |s|
  {
    hide UpperChar, DigitValue;
    if s != "" {
      UpperValue(s[..|s| - 1], base);
      assert Upper(s)[..|s| - 1] == Upper(s[..|s| - 1]);
      UpperKeepsValue(s[|s| - 1]);
    }
  }

  /** Numerals are read alike in either case. */
  lemma UpperNumeral(s: string, base: Radix)
    ensures ParseInt(Upper(s), base) == ParseInt(s, base)
  {
    hide UpperChar, AreDigits, ValueOf;
    UpperDigits(s, base);
    UpperValue(s, base);
    if s != "" {
      UpperKeepsValue(s[0]);
      assert Upper(s)[1..] == Upper(s[1..]);
      UpperDigits(s[1..], base);
      UpperValue(s[1..], base);
    }
  }

  lemma UpperKeepsTokens(ts: seq<string>)
    requires AreTokens(ts)
    ensures AreTokens(UpperAll(ts))
  {
    forall i, k | 0 <= i < |ts| && 0 <= k < |ts[i]|
      ensures !IsSpace(UpperAll(ts)[i][k])
    {
      assert IsToken(ts[i]);
    }
  }

  /** An integer is a numeral with at most one sign before it, and nothing else is. */
  lemma IntegersAccepted(tok: string, base: Radix)
    ensures ParseInt(tok, base).Some? <==>
              || AreDigits(tok, base)
              || (tok != "" && (tok[0] == '+' || tok[0] == '-') && AreDigits(tok[1..], base))
    ensures AreDigits(tok, base) ==> ParseInt(tok, base) == Some(ValueOf(tok, base))
    ensures AreDigits(tok, base) ==> ParseInt("+" + tok, base) == Some(ValueOf(tok, base))
    ensures AreDigits(tok, base) ==> ParseInt("-" + tok, base) == Some(0 - ValueOf(tok, base))
  {
    hide ValueOf;
    assert ("+" + tok)[1..] == tok && ("-" + tok)[1..] == tok;
    if tok != "" {
      assert DigitValue('+') == 16 && DigitValue('-') == 16;
      assert AreDigits(tok, base) ==> DigitValue(tok[0]) < base;
    }
  }

  lemma DigitIsUpper(d: nat)
    requires d < 16
    ensures UpperChar(DigitChar(d)) == DigitChar(d)
  {}

  /** Numerals are printed in upper case. */
  lemma {:induction false} DigitsAreUpper(n: nat, base: Radix)
    ensures Upper(Digits(n, base)) == Digits(n, base)
    decreases n
  {
    hide UpperChar, DigitChar;
    if n < base {
      DigitIsUpper(n);
    } else {
      DigitsAreUpper(n / base, base);
      DigitIsUpper(n % base);
      assert forall i :: 0 <= i < |Digits(n / base, base)| ==>
                           UpperChar(Digits(n / base, base)[i]) == Upper(Digits(n / base, base))[i];
    }
  }

  // ---------------------------------------------------------------- searching

  /** The first position of `c` in `s`. */
  function IndexOf(s: string, c: char): (i: Option<nat>)
    ensures i.Some? ==> i.value < |s| && s[i.value] == c && forall j :: 0 <= j < i.value ==> s[j] != c
    ensures i.None? ==> c !in s
  {
    if s == "" then None
    else if s[0] == c then Some(0)
    else match IndexOf(s[1..], c)
         case None => None
         case Some(k) => Some(k + 1)
  }
}
