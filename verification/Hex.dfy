// Hexadecimal text, as an ostream writes it with hex, setw(2) and setfill('0').
module Hex {
  import opened Bytes
  import opened Wire

  const NEWLINE: byte := 10

  function HexDigit(d: nat): byte
    requires d < 16
  {
    if d < 10 then 48 + d else 87 + d
  }

  // The digits of n, as many as needed.
  function HexNumber(n: nat): (s: bytes)
    ensures |s| > 0
  {
    if n < 16 then [HexDigit(n)] else HexNumber(n / 16) + [HexDigit(n % 16)]
  }

  // << hex << setw(2) << setfill('0') << n
  function FormatHex(n: nat): bytes {
    var digits := HexNumber(n);
    if |digits| < 2 then [48] + digits else digits
  }

  lemma FormatHexByte(b: byte)
    ensures FormatHex(b) == [HexDigit(b / 16), HexDigit(b % 16)]
  {
    if b >= 16 {
      assert b / 16 < 16;
      assert HexNumber(b) == HexNumber(b / 16) + [HexDigit(b % 16)];
    }
  }

  // A `char` read as an int: the upper half of the byte values is negative.
  function SignedChar(b: byte): int {
    if b < 128 then b else b - 256
  }

  // n & 0xFF on a two's complement int.
  function LowByte(n: int): byte {
    n % 256
  }

  lemma SignedCharLowByte(b: byte)
    ensures LowByte(SignedChar(b)) == b
  {}

  function HexOf(s: bytes): (t: bytes)
    decreases |s|
  {
    if s == [] then [] else HexOf(s[..|s| - 1]) + FormatHex(s[|s| - 1])
  }

  lemma HexOfNothing()
    ensures HexOf([]) == []
  {}

  lemma HexOfMore(s: bytes, b: byte)
    ensures HexOf(s + [b]) == HexOf(s) + FormatHex(b)
  {
    assert (s + [b])[..|s|] == s;
  }

  function DigitValue(c: byte): Option<nat> {
    if 48 <= c < 58 then Some(c - 48)
    else if 97 <= c < 103 then Some(c - 87)
    else None
  }

  function Unhex(t: bytes): Option<bytes>
    decreases |t|
  {
    if t == [] then Some([])
    else if |t| < 2 then None
    else
      var n := |t| - 2;
      match (Unhex(t[..n]), DigitValue(t[n]), DigitValue(t[n + 1]))
      case (Some(s), Some(hi), Some(lo)) =>
        if hi < 16 && lo < 16 then Some(s + [16 * hi + lo]) else None
      case _ => None
  }

  lemma DigitRoundTrip(d: nat)
    requires d < 16
    ensures DigitValue(HexDigit(d)) == Some(d)
  {}

  lemma UnhexStep(t: bytes, s: bytes, b: byte)
    requires Unhex(t) == Some(s)
    ensures Unhex(t + [HexDigit(b / 16), HexDigit(b % 16)]) == Some(s + [b])
  {
    hide HexDigit; hide DigitValue;
    var u := t + [HexDigit(b / 16), HexDigit(b % 16)];
    assert u[..|t|] == t;
    DigitRoundTrip(b / 16);
    DigitRoundTrip(b % 16);
    assert 16 * (b / 16) + b % 16 == b;
  }

  lemma {:induction false} HexRoundTrip(s: bytes)
    ensures |HexOf(s)| == 2 * |s|
    ensures Unhex(HexOf(s)) == Some(s)
    decreases |s|
  {
    hide Unhex; hide FormatHex; hide HexDigit;
    if s != [] {
      var n := |s| - 1;
      HexRoundTrip(s[..n]);
      FormatHexByte(s[n]);
      UnhexStep(HexOf(s[..n]), s[..n], s[n]);
      assert s == s[..n] + [s[n]];
    } else {
      UnhexNothing();
    }
  }

  // "0123456789abcdef"
  const DIGITS: bytes := [48, 49, 50, 51, 52, 53, 54, 55, 56, 57, 97, 98, 99, 100, 101, 102]

  lemma HexDigitIs(d: nat)
    requires d < 16
    ensures HexDigit(d) == DIGITS[d]
  {}

  // Byte i is written as its high digit and then its low one.
  lemma {:induction false} HexOfAt(s: bytes, i: nat)
    requires i < |s|
    ensures |HexOf(s)| == 2 * |s|
    ensures HexOf(s)[2 * i] == DIGITS[s[i] / 16] && HexOf(s)[2 * i + 1] == DIGITS[s[i] % 16]
    decreases |s|
  {
    hide HexDigit; hide FormatHex; hide HexOf;
    var n := |s| - 1;
    var front := HexOf(s[..n]);
    assert s == s[..n] + [s[n]];
    HexRoundTrip(s);
    HexRoundTrip(s[..n]);
    HexOfMore(s[..n], s[n]);
    FormatHexByte(s[n]);
    assert HexOf(s) == front + [HexDigit(s[n] / 16), HexDigit(s[n] % 16)];
    if i < n {
      HexOfAt(s[..n], i);
      assert HexOf(s)[2 * i] == front[2 * i] && HexOf(s)[2 * i + 1] == front[2 * i + 1];
    } else {
      HexDigitIs(s[n] / 16);
      HexDigitIs(s[n] % 16);
    }
  }

  lemma UnhexNothing()
    ensures Unhex([]) == Some([])
  {}

  // Hexadecimal text is digits only: no NUL, no newline.
  lemma {:induction false} HexIsText(s: bytes)
    ensures forall c | c in HexOf(s) :: 48 <= c < 103
    decreases |s|
  {
    if s == [] {
    } else {
      HexIsText(s[..|s| - 1]);
      FormatHexByte(s[|s| - 1]);
    }
  }
}
