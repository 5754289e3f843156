/** stringToUrl and urlToString: percent-encoding (section 2.1 of RFC 3986), with a plus for a space. */
module Url {
  import opened Bytes
  import opened Options

  const PERCENT: byte := 0x25
  const PLUS: byte := 0x2B
  const SPACE: byte := 0x20

  /** The characters of badURLChars, and NUL, which the search for a character finds at its end. */
  const BAD: seq<byte> := [0x3B, 0x2F, 0x3F, 0x3A, 0x40, 0x26, 0x3D, 0x2B, 0x21, 0x2A, 0x27, 0x28, 0x29, 0x2C, 0x24, 0x2D, 0x5F,
                           0x2E, 0x3C, 0x3E, 0x23, 0x25, 0x22, 0x09, 0x0A, 0x0D, 0x00]

  predicate Bad(b: byte) {
    b in BAD
  }

  /** "0123456789ABCDEF"[v] */
  function HexDigit(v: nat): byte
    requires v < 16
  {
    if v < 10 then 0x30 + v else 0x41 + (v - 10)
  }

  function ToUpper(b: byte): byte {
    if 0x61 <= b <= 0x7A then b - 32 else b
  }

  /** Where a character is among the hexadecimal digits: NUL is found at their end. */
  function HexValue(b: byte): Option<nat> {
    var c := ToUpper(b);
    if 0x30 <= c <= 0x39 then Some(c - 0x30) else if 0x41 <= c <= 0x46 then Some(c - 0x41 + 10) else if c == 0 then Some(16) else None
  }

  predicate IsHex(b: byte) {
    HexValue(b).Some? && HexValue(b).value < 16
  }

  // ---- What the conversions come to -------------------------------------------------------------------

  function EncodedByte(b: byte): seq<byte> {
    if Bad(b) then [PERCENT, HexDigit(b / 16), HexDigit(b % 16)]
    else if b == SPACE then [PLUS]
    else [b]
  }

  function Encoded(s: seq<byte>): seq<byte> {
    if s == [] then [] else EncodedByte(s[0]) + Encoded(s[1..])
  }

  /** Every percent sign has two hexadecimal digits after it. */
  predicate WellFormed(s: seq<byte>) {
    if s == [] then true
    else if s[0] == PERCENT then |s| >= 3 && IsHex(s[1]) && IsHex(s[2]) && WellFormed(s[3..])
    else WellFormed(s[1..])
  }

  function Decoded(s: seq<byte>): seq<byte>
    requires WellFormed(s)
  {
    if s == [] then []
    else if s[0] == PERCENT then [HexValue(s[1]).value * 16 + HexValue(s[2]).value] + Decoded(s[3..])
    else [if s[0] == PLUS then SPACE else s[0]] + Decoded(s[1..])
  }

  function CountBad(s: seq<byte>): nat {
    if s == [] then 0 else (if Bad(s[0]) then 1 else 0) + CountBad(s[1..])
  }

  function CountPercent(s: seq<byte>): nat {
    if s == [] then 0 else (if s[0] == PERCENT then 1 else 0) + CountPercent(s[1..])
  }

  lemma {:induction false} HexRoundTrip(v: nat)
    requires v < 16
    ensures HexValue(HexDigit(v)) == Some(v) && !Bad(HexDigit(v)) && HexDigit(v) != PERCENT && HexDigit(v) != SPACE
  {}

  /** Decoding takes back what encoding did, for any bytes at all. */
  lemma {:induction false} RoundTrip(s: seq<byte>)
    ensures WellFormed(Encoded(s)) && Decoded(Encoded(s)) == s
  {
    if s != [] {
      var b, rest := s[0], Encoded(s[1..]);
      RoundTrip(s[1..]);
      HexRoundTrip(b / 16);
      HexRoundTrip(b % 16);
      assert s == [b] + s[1..];
      if Bad(b) {
        assert Encoded(s)[3..] == rest && Encoded(s)[1] == HexDigit(b / 16) && Encoded(s)[2] == HexDigit(b % 16);
      } else {
        assert Encoded(s)[1..] == rest;
      }
    }
  }

  // ---- The same with the characters written out -------------------------------------------------------

  /** A hexadecimal digit for v, in either case. */
  predicate DigitFor(b: byte, v: nat) {
    v < 16 && (b == "0123456789ABCDEF"[v] as int || b == "0123456789abcdef"[v] as int)
  }

  lemma {:induction false} DigitMeans(b: byte)
    ensures forall v: nat | v < 16 :: HexValue(b) == Some(v) <==> DigitFor(b, v)
    ensures HexValue(b) == Some(16) <==> b == 0
    ensures HexValue(b).Some? ==> HexValue(b).value <= 16
  {}

  /** badURLChars, with the NUL at its end. */
  predicate Reserved(b: byte) {
    b == 0 || exists i :: 0 <= i < 26 && b == ";/?:@&=+!*'(),$-_.<>#%\"\t\n\r"[i] as int
  }

  lemma {:induction false} BadMeans(b: byte)
    ensures Bad(b) <==> Reserved(b)
  {
    var chars := ";/?:@&=+!*'(),$-_.<>#%\"\t\n\r";
    forall i | 0 <= i < 26 ensures BAD[i] == chars[i] as int {}
    assert |BAD| == 27 && BAD[26] == 0;
  }

  /** A byte of a URL: itself, or a plus for a space, or an escape. */
  lemma {:induction false} EncodedByteMeans(b: byte)
    ensures EncodedByte(b) ==
            if Reserved(b) then ['%' as int, "0123456789ABCDEF"[b / 16] as int, "0123456789ABCDEF"[b % 16] as int]
            else if b == ' ' as int then ['+' as int]
            else [b]
  {
    BadMeans(b);
    HexDigitMeans(b / 16);
    HexDigitMeans(b % 16);
    hide Bad, Reserved, HexDigit;
  }

  lemma {:induction false} HexDigitMeans(v: nat)
    requires v < 16
    ensures HexDigit(v) == "0123456789ABCDEF"[v] as int
  {}

  /** t is one of the ways to write s: any byte may be escaped, in capitals or not, a space may be a plus, and all
      but percent signs and pluses may be as they are. */
  predicate Spells(t: seq<byte>, s: seq<byte>)
    decreases s
  {
    if s == [] then t == []
    else
      || (|t| >= 3 && t[0] == '%' as int && DigitFor(t[1], s[0] / 16) && DigitFor(t[2], s[0] % 16) && Spells(t[3..], s[1..]))
      || (t != [] && t[0] == '+' as int && s[0] == ' ' as int && Spells(t[1..], s[1..]))
      || (t != [] && t[0] == s[0] && t[0] != '%' as int && t[0] != '+' as int && Spells(t[1..], s[1..]))
  }

  lemma {:induction false} EscapeMeans(a: byte, b: byte, c: byte)
    ensures DigitFor(a, c / 16) && DigitFor(b, c % 16) <==>
              IsHex(a) && IsHex(b) && HexValue(a).value * 16 + HexValue(b).value == c
  {
    DigitMeans(a);
    DigitMeans(b);
    hide HexValue, DigitFor;
    if IsHex(a) && IsHex(b) {
      var v, w := HexValue(a).value, HexValue(b).value;
      assert v * 16 + w == c <==> v == c / 16 && w == c % 16;
    }
  }

  /** Decoding tells just what is written. */
  lemma {:induction false} DecodesSpelling(t: seq<byte>, s: seq<byte>)
    ensures Spells(t, s) <==> WellFormed(t) && Decoded(t) == s
    decreases s
  {
    hide HexValue, DigitFor, IsHex;
    if s != [] && t != [] {
      assert s == [s[0]] + s[1..];
      if t[0] == PERCENT {
        if |t| >= 3 {
          DecodesSpelling(t[3..], s[1..]);
          EscapeMeans(t[1], t[2], s[0]);
          if WellFormed(t) { FirstDecoded(t, 3); }
        }
      } else {
        DecodesSpelling(t[1..], s[1..]);
        if WellFormed(t) { FirstDecoded(t, 1); }
      }
    }
  }

  lemma {:induction false} FirstDecoded(t: seq<byte>, n: nat)
    requires WellFormed(t) && t != [] && n == if t[0] == PERCENT then 3 else 1
    ensures |t| >= n && Decoded(t) == [Decoded(t)[0]] + Decoded(t[n..]) && Decoded(t)[1..] == Decoded(t[n..])
  {
    hide HexValue;
  }

  /** Nothing that a URL reserves is left but the percent signs, and the pluses that stand for spaces. */
  lemma {:induction false} EncodedSafe(s: seq<byte>)
    ensures forall b | b in Encoded(s) :: b != SPACE && (Bad(b) ==> b == PERCENT || b == PLUS)
  {
    if s != [] {
      EncodedSafe(s[1..]);
      HexRoundTrip(s[0] / 16);
      HexRoundTrip(s[0] % 16);
      forall b | b in Encoded(s) ensures b != SPACE && (Bad(b) ==> b == PERCENT || b == PLUS) {
        assert b in EncodedByte(s[0]) || b in Encoded(s[1..]);
      }
    }
  }

  /** The lengths computed beforehand are those that come out. */
  lemma {:induction false} EncodedLength(s: seq<byte>)
    ensures |Encoded(s)| == |s| + 2 * CountBad(s)
  {
    if s != [] {
      EncodedLength(s[1..]);
    }
  }

  lemma {:induction false} DecodedLength(s: seq<byte>)
    requires WellFormed(s)
    ensures |Decoded(s)| == |s| - 2 * CountPercent(s)
    decreases s
  {
    if s != [] {
      if s[0] == PERCENT {
        DecodedLength(s[3..]);
        assert s[1..][1..] == s[2..] && s[2..][1..] == s[3..];
        assert CountPercent(s) == 1 + CountPercent(s[1..]) && CountPercent(s[1..]) == CountPercent(s[2..]) == CountPercent(s[3..]);
      } else {
        DecodedLength(s[1..]);
      }
    }
  }

  // ---- The conversions ---------------------------------------------------------------------------------

  lemma {:induction false} CountBadLast(s: seq<byte>, b: byte)
    ensures CountBad(s + [b]) == CountBad(s) + if Bad(b) then 1 else 0
  {
    if s == [] {
      assert [] + [b] == [b] && [b][1..] == [];
    } else {
      assert (s + [b])[1..] == s[1..] + [b];
      CountBadLast(s[1..], b);
    }
  }

  lemma {:induction false} EncodedLast(s: seq<byte>, b: byte)
    ensures Encoded(s + [b]) == Encoded(s) + EncodedByte(b)
  {
    if s == [] {
      assert [] + [b] == [b] && [b][1..] == [] && EncodedByte(b) + [] == EncodedByte(b);
    } else {
      assert (s + [b])[1..] == s[1..] + [b];
      EncodedLast(s[1..], b);
    }
  }

  lemma {:induction false} EncodedPrefix(s: seq<byte>, i: nat)
    requires i < |s|
    ensures |Encoded(s[..i])| + |EncodedByte(s[i])| <= |Encoded(s)|
    decreases |s| - i
  {
    assert s[..i + 1] == s[..i] + [s[i]];
    EncodedLast(s[..i], s[i]);
    if i + 1 < |s| {
      EncodedPrefix(s, i + 1);
    } else {
      assert s[..i + 1] == s;
    }
  }

  method CountBadChars(from: seq<byte>) returns (badChars: nat)
    ensures badChars == CountBad(from)
  {
    hide Bad;
    badChars := 0;
    for i := 0 to |from|
      invariant badChars == CountBad(from[..i])
    {
      assert from[..i + 1] == from[..i] + [from[i]];
      CountBadLast(from[..i], from[i]);
      if Bad(from[i]) { badChars := badChars + 1; }
    }
    assert from[..|from|] == from;
  }

  method PutEncoded(to: array<byte>, j: nat, b: byte) returns (k: nat)
    requires j + |EncodedByte(b)| <= to.Length
    modifies to
    ensures k == j + |EncodedByte(b)| && to[..k] == old(to[..j]) + EncodedByte(b)
  {
    hide Bad;
    if Bad(b) {
      to[j] := PERCENT;
      to[j + 1] := HexDigit(b / 16);
      to[j + 2] := HexDigit(b % 16);
      k := j + 3;
    } else {
      to[j] := if b == SPACE then PLUS else b;
      k := j + 1;
    }
    assert to[..k] == to[..j] + to[j..k];
  }

  method StringToUrl(from: seq<byte>) returns (to: array<byte>)
    ensures fresh(to) && to[..] == Encoded(from) && Spells(to[..], from)
  {
    RoundTrip(from);
    DecodesSpelling(Encoded(from), from);
    hide Encoded, EncodedByte, CountBad;
    var badChars := CountBadChars(from);
    EncodedLength(from);
    var newSize := |from| + badChars * 2;
    to := new byte[newSize];
    var i, j := 0, 0;
    NothingEncoded();
    while i < |from| && j < newSize
      invariant i <= |from| && j == |Encoded(from[..i])| <= newSize
      invariant to[..j] == Encoded(from[..i])
    {
      assert from[..i + 1] == from[..i] + [from[i]];
      EncodedLast(from[..i], from[i]);
      EncodedPrefix(from, i);
      j := PutEncoded(to, j, from[i]);
      i := i + 1;
    }
    if i < |from| {
      EncodedPrefix(from, i);
      SomeEncoded(from[i]);
    }
    assert from[..i] == from;
    assert to[..] == to[..j];
  }

  lemma {:induction false} NothingEncoded()
    ensures Encoded([]) == []
  {}

  lemma {:induction false} SomeEncoded(b: byte)
    ensures |EncodedByte(b)| > 0
  {}

  /** The states of urlToString: not in an escape, at its percent sign, first or second digit. */
  datatype Escape = Plain | First | Second(high: byte)

  /** The digit's value.  Where there is none, strchr answers NULL, and the code takes the low 32 bits of the
      distance from the digits to that: `no`, of which nothing is known but that it is the same every time. */
  function Digit(b: byte, no: int): Option<nat> {
    match HexValue(b)
    case Some(v) => Some(v)
    case None => if no >= 0 then Some(no) else None
  }

  lemma {:induction false} NoDigit(b: byte, no: int)
    requires b != 0 && forall v: nat | v < 16 :: !DigitFor(b, v)
    ensures Digit(b, no) == if no < 0 then None else Some(no)
  {
    DigitMeans(b);
    var v := match HexValue(b) case Some(x) => x case None => 0;
    assert v < 16 ==> (HexValue(b) == Some(v) <==> DigitFor(b, v));
  }

  /** What is written when `room` bytes are left: as long as there is room and no digit is missing. */
  function Scan(no: int, s: seq<byte>, room: nat, e: Escape): Option<seq<byte>> {
    if s == [] || room == 0 then Some([])
    else
      var c := if s[0] == PLUS then SPACE else s[0];
      if c == PERCENT then Scan(no, s[1..], room, First)
      else
        match e
        case Plain =>
          var r := Scan(no, s[1..], room - 1, Plain);
          if r.None? then None else Some([c] + r.value)
        case First =>
          var v := Digit(c, no);
          if v.None? then None else Scan(no, s[1..], room, Second(v.value * 16 % 256))
        case Second(high) =>
          var v := Digit(c, no);
          if v.None? then None
          else
            var r := Scan(no, s[1..], room - 1, Plain);
            if r.None? then None else Some([(high + v.value) % 256] + r.value)
  }

  /** Well-formed text is decoded to the end, and fills its bytes exactly. */
  lemma {:induction false} ScanDecodes(no: int, s: seq<byte>)
    requires WellFormed(s)
    ensures Scan(no, s, |Decoded(s)|, Plain) == Some(Decoded(s))
    decreases s
  {
    if s != [] {
      if s[0] == PERCENT {
        ScanDecodes(no, s[3..]);
        ScanEscape(no, s);
      } else {
        ScanDecodes(no, s[1..]);
      }
    }
  }

  lemma {:induction false} ScanEscape(no: int, s: seq<byte>)
    requires WellFormed(s) && s != [] && s[0] == PERCENT && Scan(no, s[3..], |Decoded(s[3..])|, Plain) == Some(Decoded(s[3..]))
    ensures Scan(no, s, |Decoded(s)|, Plain) == Some(Decoded(s))
  {
    hide HexValue, IsHex;
    var n := |Decoded(s)|;
    assert n == 1 + |Decoded(s[3..])|;
    var one, two := s[1..], s[2..];
    assert one[0] == s[1] && one[1..] == two && two[0] == s[2] && two[1..] == s[3..];
    HexNotPlus(s[1]);
    HexNotPlus(s[2]);
    assert Digit(s[1], no) == HexValue(s[1]) && Digit(s[2], no) == HexValue(s[2]);
    hide WellFormed, Digit;
    var h := HexValue(s[1]).value * 16;
    assert Scan(no, s, n, Plain) == Scan(no, one, n, First);
    assert Scan(no, one, n, First) == Scan(no, two, n, Second(h));
  }

  lemma {:induction false} HexNotPlus(b: byte)
    requires IsHex(b)
    ensures b != PLUS && b != PERCENT && HexValue(b).Some? && HexValue(b).value < 16
  {}

  method CountPercents(from: seq<byte>) returns (urlChars: nat)
    ensures urlChars == CountPercent(from)
  {
    urlChars := 0;
    for j := 0 to |from|
      invariant urlChars == CountPercent(from[..j])
    {
      assert from[..j + 1] == from[..j] + [from[j]];
      CountPercentLast(from[..j], from[j]);
      if from[j] == PERCENT { urlChars := urlChars + 1; }
    }
    assert from[..|from|] == from;
  }

  lemma {:induction false} CountPercentLast(s: seq<byte>, b: byte)
    ensures CountPercent(s + [b]) == CountPercent(s) + if b == PERCENT then 1 else 0
  {
    if s == [] {
      assert [] + [b] == [b] && [b][1..] == [];
    } else {
      assert (s + [b])[1..] == s[1..] + [b];
      CountPercentLast(s[1..], b);
    }
  }

  /** What is_hex and the byte being made say. */
  function EscapeOf(isHex: nat, made: byte): Escape {
    if isHex == 2 then First else if isHex == 1 then Second(made) else Plain
  }

  /** urlToString, on any bytes: nil when a character that ought to be a digit is none and `no` happens to be
      negative, and otherwise a string of the length computed beforehand that starts with what was read. */
  method UrlToString(from: seq<byte>, no: int) returns (r: Option<array<byte>>)
    ensures var size := |from| - 2 * CountPercent(from);
            var room := if size < 0 then 0 else size;
            match Scan(no, from, room, Plain)
            case None => r.None?
            case Some(w) => r.Some? && r.value.Length == room && |w| <= room && r.value[..|w|] == w
    ensures WellFormed(from) ==> r.Some? && r.value[..] == Decoded(from)
    ensures forall s | Spells(from, s) :: r.Some? && r.value[..] == s
  {
    forall s | Spells(from, s) ensures WellFormed(from) && Decoded(from) == s { DecodesSpelling(from, s); }
    var urlChars := CountPercents(from);
    var newSize: int := |from| - urlChars * 2;
    if newSize < 0 { newSize := 0; }
    if WellFormed(from) {
      DecodedLength(from);
      ScanDecodes(no, from);
    }
    var to := new byte[newSize];
    r := Read(from, to, no);
  }

  lemma {:induction false} Shifted(done: seq<byte>, b: byte, r: Option<seq<byte>>)
    ensures r.Some? ==> done + ([b] + r.value) == done + [b] + r.value
  {}

  method Read(from: seq<byte>, to: array<byte>, no: int) returns (r: Option<array<byte>>)
    modifies to
    ensures match Scan(no, from, to.Length, Plain)
            case None => r.None?
            case Some(w) => r == Some(to) && |w| <= to.Length && to[..|w|] == w
  {
    hide Digit;
    var i, j, isHex := 0, 0, 0;
    ghost var whole := Scan(no, from, to.Length, Plain);
    assert from[0..] == from && (whole.Some? ==> [] + whole.value == whole.value);
    while i < |from| && j < to.Length
      invariant i <= |from| && 0 <= j <= to.Length && 0 <= isHex <= 2
      invariant var rest := Scan(no, from[i..], to.Length - j, EscapeOf(isHex, if j < to.Length then to[j] else 0));
                whole == if rest.None? then None else Some(to[..j] + rest.value)
    {
      assert from[i..][0] == from[i] && from[i..][1..] == from[i + 1..];
      var c := if from[i] == PLUS then SPACE else from[i];
      ghost var done, room := to[..j], to.Length - j;
      if c == PERCENT { isHex := 3; }
      if isHex == 3 {
        isHex := 2;
      } else if isHex == 2 {
        isHex := 1;
        var v := Digit(c, no);
        if v.None? { return None; }
        to[j] := v.value * 16 % 256;
      } else if isHex == 1 {
        isHex := 0;
        var v := Digit(c, no);
        if v.None? { return None; }
        to[j] := (to[j] + v.value) % 256;
        j := j + 1;
        assert to[..j] == done + [to[j - 1]];
        Shifted(done, to[j - 1], Scan(no, from[i + 1..], room - 1, Plain));
      } else {
        to[j] := c;
        j := j + 1;
        assert to[..j] == done + [c];
        Shifted(done, c, Scan(no, from[i + 1..], room - 1, Plain));
      }
      i := i + 1;
    }
    return Some(to);
  }
}
