// Bytes, fixed-width integers on the wire, and C strings.
module Bytes {
  type byte = x: int | 0 <= x < 256

  type bytes = seq<byte>

  function Fill(n: nat, b: byte): (s: bytes)
    ensures |s| == n
    ensures forall i | 0 <= i < n :: s[i] == b
  {
    seq(n, _ => b)
  }

  // Little-endian, as the client's own integers are laid out in memory.

  function Le16(n: nat): (s: bytes)
    requires n < 0x1_0000
    ensures |s| == 2
  {
    [n % 256, n / 256]
  }

  function FromLe16(s: bytes): (n: nat)
    requires |s| == 2
    ensures n < 0x1_0000
  {
    s[0] as nat + 256 * (s[1] as nat)
  }

  function Le32(n: nat): (s: bytes)
    requires n < 0x1_0000_0000
    ensures |s| == 4
  {
    Le16(n % 0x1_0000) + Le16(n / 0x1_0000)
  }

  function FromLe32(s: bytes): (n: nat)
    requires |s| == 4
    ensures n < 0x1_0000_0000
  {
    FromLe16(s[..2]) + 0x1_0000 * FromLe16(s[2..])
  }

  lemma Le16RoundTrip(n: nat)
    requires n < 0x1_0000
    ensures FromLe16(Le16(n)) == n
  {}

  lemma Le32RoundTrip(n: nat)
    requires n < 0x1_0000_0000
    ensures FromLe32(Le32(n)) == n
  {
    var lo, hi := n % 0x1_0000, n / 0x1_0000;
    assert Le32(n)[..2] == Le16(lo) && Le32(n)[2..] == Le16(hi);
    Le16RoundTrip(lo);
    Le16RoundTrip(hi);
  }

  // Big-endian, as htons, htonl, ntohs and ntohl put it on the wire.

  function Reverse(s: bytes): (r: bytes)
    ensures |r| == |s|
  {
    seq(|s|, i requires 0 <= i < |s| => s[|s| - 1 - i])
  }

  function Be16(n: nat): (s: bytes)
    requires n < 0x1_0000
    ensures |s| == 2
  {
    Reverse(Le16(n))
  }

  function FromBe16(s: bytes): (n: nat)
    requires |s| == 2
    ensures n < 0x1_0000
  {
    FromLe16(Reverse(s))
  }

  function Be32(n: nat): (s: bytes)
    requires n < 0x1_0000_0000
    ensures |s| == 4
  {
    Reverse(Le32(n))
  }

  function FromBe32(s: bytes): (n: nat)
    requires |s| == 4
    ensures n < 0x1_0000_0000
  {
    FromLe32(Reverse(s))
  }

  lemma ReverseTwice(s: bytes)
    ensures Reverse(Reverse(s)) == s
  {}

  lemma Be16RoundTrip(n: nat)
    requires n < 0x1_0000
    ensures FromBe16(Be16(n)) == n
  {
    ReverseTwice(Le16(n));
    Le16RoundTrip(n);
  }

  lemma Be32RoundTrip(n: nat)
    requires n < 0x1_0000_0000
    ensures FromBe32(Be32(n)) == n
  {
    ReverseTwice(Le32(n));
    Le32RoundTrip(n);
  }

  // The byte orders themselves.

  lemma LittleEndian16(n: nat, lo: byte, hi: byte)
    requires n < 0x1_0000
    ensures Le16(n) == [lo, hi] <==> n == lo as nat + 0x100 * (hi as nat)
    ensures FromLe16([lo, hi]) == lo as nat + 0x100 * (hi as nat)
  {}

  lemma LittleEndian32(n: nat, b0: byte, b1: byte, b2: byte, b3: byte)
    requires n < 0x1_0000_0000
    ensures FromLe32([b0, b1, b2, b3])
         == b0 as nat + 0x100 * (b1 as nat) + 0x1_0000 * (b2 as nat) + 0x100_0000 * (b3 as nat)
    ensures Le32(n) == [b0, b1, b2, b3] <==> n == FromLe32([b0, b1, b2, b3])
  {
    hide Le16; hide FromLe16; hide Le32;
    var s := [b0, b1, b2, b3];
    assert s[..2] == [b0, b1] && s[2..] == [b2, b3];
    LittleEndian16(0, b0, b1);
    LittleEndian16(0, b2, b3);
    Le32RoundTrip(n);
    Le32OfFrom(b0, b1, b2, b3);
  }

  lemma Le32OfFrom(b0: byte, b1: byte, b2: byte, b3: byte)
    ensures Le32(FromLe32([b0, b1, b2, b3])) == [b0, b1, b2, b3]
  {
    hide Le16; hide FromLe16;
    var s := [b0, b1, b2, b3];
    assert s[..2] == [b0, b1] && s[2..] == [b2, b3];
    var lo, hi := FromLe16([b0, b1]), FromLe16([b2, b3]);
    assert FromLe32(s) == lo + 0x1_0000 * hi;
    Halves(lo, hi);
    LittleEndian16(lo, b0, b1);
    LittleEndian16(hi, b2, b3);
  }

  lemma Halves(lo: nat, hi: nat)
    requires lo < 0x1_0000
    ensures (lo + 0x1_0000 * hi) % 0x1_0000 == lo && (lo + 0x1_0000 * hi) / 0x1_0000 == hi
  {}

  lemma ReverseTwo(a: byte, b: byte)
    ensures Reverse([a, b]) == [b, a]
  {}

  lemma ReverseFour(a: byte, b: byte, c: byte, d: byte)
    ensures Reverse([a, b, c, d]) == [d, c, b, a]
  {}

  lemma BigEndian16(n: nat, hi: byte, lo: byte)
    requires n < 0x1_0000
    ensures FromBe16([hi, lo]) == 0x100 * (hi as nat) + lo as nat
    ensures Be16(n) == [hi, lo] <==> n == 0x100 * (hi as nat) + lo as nat
  {
    hide Le16; hide FromLe16; hide Reverse;
    ReverseTwo(hi, lo);
    ReverseTwo(lo, hi);
    ReverseTwice(Le16(n));
    LittleEndian16(n, lo, hi);
  }

  lemma BigEndian32(n: nat, b3: byte, b2: byte, b1: byte, b0: byte)
    requires n < 0x1_0000_0000
    ensures FromBe32([b3, b2, b1, b0])
         == 0x100_0000 * (b3 as nat) + 0x1_0000 * (b2 as nat) + 0x100 * (b1 as nat) + b0 as nat
    ensures Be32(n) == [b3, b2, b1, b0] <==> n == FromBe32([b3, b2, b1, b0])
  {
    hide Le32; hide FromLe32; hide Reverse;
    ReverseFour(b3, b2, b1, b0);
    ReverseFour(b0, b1, b2, b3);
    ReverseTwice(Le32(n));
    LittleEndian32(n, b0, b1, b2, b3);
  }

  // The characters of s up to, and not including, its first NUL.
  function CStr(s: bytes): (c: bytes)
    ensures |c| <= |s| && c == s[..|c|]
    ensures 0 !in c
    ensures |c| < |s| ==> s[|c|] == 0
  {
    if s == [] || s[0] == 0 then [] else [s[0]] + CStr(s[1..])
  }

  lemma {:induction false} CStrWhole(s: bytes)
    requires 0 !in s
    ensures CStr(s) == s
    decreases |s|
  {
    if s == [] {
    } else {
      assert s[0] in s;
      CStrWhole(s[1..]);
    }
  }

  function Min(a: nat, b: nat): nat {
    if a < b then a else b
  }

  // A field of n bytes written by strncpy: at most n characters, then zeros.
  function Field(s: bytes, n: nat): (f: bytes)
    ensures |f| == n
  {
    var c := CStr(s);
    c[..Min(|c|, n)] + Fill(n - Min(|c|, n), 0)
  }

  // The text in a zero-padded field is recovered by reading it as a C string.
  lemma {:induction false} FieldText(s: bytes, n: nat)
    requires 0 !in s && |s| <= n
    ensures CStr(Field(s, n)) == s
  {
    CStrWhole(s);
    CStrThenZeros(s, n - |s|);
  }

  lemma {:induction false} CStrThenZeros(s: bytes, k: nat)
    requires 0 !in s
    ensures CStr(s + Fill(k, 0)) == s
    decreases |s|
  {
    if s == [] {
      assert s + Fill(k, 0) == Fill(k, 0);
    } else {
      assert s[0] in s;
      assert (s + Fill(k, 0))[1..] == s[1..] + Fill(k, 0);
      CStrThenZeros(s[1..], k);
    }
  }
}
