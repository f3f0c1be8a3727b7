// Which all-zero files share a checksum.
module ZeroFiles {
  import opened Bits
  import opened Word
  import opened Register
  import opened TableProof
  import opened Checksum
  import opened CrcTheorems

  function Pow256(k: nat): nat {
    if k == 0 then 1 else 256 * Pow256(k - 1)
  }

  lemma {:induction false} LengthBytesInjective(n: nat, m: nat)
    requires LengthBytes(n) == LengthBytes(m)
    ensures n == m
    decreases n
  {
    if n != 0 && m != 0 {
      LowByte(n);
      LowByte(m);
      LengthBytesInjective(n / 256, m / 256);
    }
  }

  // The first length byte determines the length modulo 256.
  lemma LowByte(n: nat)
    requires n != 0
    ensures LengthBytes(n)[0] as int == n % 256
    ensures LengthBytes(n)[1..] == LengthBytes(n / 256)
  {
    ByteValue(n % 256);
  }

  lemma {:induction false} LengthBound(n: nat, k: nat)
    requires n < Pow256(k)
    ensures |LengthBytes(n)| <= k
    decreases k
  {
    if n != 0 && k > 0 {
      assert n / 256 < Pow256(k - 1);
      LengthBound(n / 256, k - 1);
    }
  }

  // Multiplying a length by 256 puts a zero byte in front of its length bytes.
  lemma {:induction false} ShiftedLength(m: nat, k: nat)
    requires m > 0
    ensures m * Pow256(k) > 0
    ensures LengthBytes(m * Pow256(k)) == ZeroBytes(k) + LengthBytes(m)
    decreases k
  {
    if k == 0 {
      assert ZeroBytes(0) + LengthBytes(m) == LengthBytes(m);
    } else {
      ShiftedLength(m, k - 1);
      var n := m * Pow256(k - 1);
      Regroup(m, Pow256(k - 1));
      assert (256 * n) / 256 == n && (256 * n) % 256 == 0;
      assert LengthBytes(256 * n) == [0] + LengthBytes(n);
      assert ZeroBytes(k) == [0] + ZeroBytes(k - 1);
    }
  }

  lemma Regroup(m: nat, p: nat)
    ensures m * (256 * p) == 256 * (m * p)
  {}

  // Conversely, a length whose bytes are k zeros and then those of m.
  lemma {:induction false} ZerosInFront(n: nat, m: nat, k: nat)
    requires LengthBytes(n) == ZeroBytes(k) + LengthBytes(m)
    ensures n == m * Pow256(k)
    decreases k
  {
    if k == 0 {
      assert ZeroBytes(0) + LengthBytes(m) == LengthBytes(m);
      LengthBytesInjective(n, m);
    } else {
      assert ZeroBytes(k) == [0] + ZeroBytes(k - 1);
      assert LengthBytes(n)[0] == 0;
      LowByte(n);
      assert LengthBytes(n)[1..] == ZeroBytes(k - 1) + LengthBytes(m);
      ZerosInFront(n / 256, m, k - 1);
      Regroup(m, Pow256(k - 1));
      assert n == 256 * (n / 256);
    }
  }

  // Leading zero bytes leave register zero unchanged.
  lemma ZerosFromZero(k: nat, tail: seq<bv8>)
    ensures Consume(ZERO, BitsOf(ZeroBytes(k) + tail)) == Consume(ZERO, BitsOf(tail))
  {
    hide BitsOf; hide ZeroBytes; hide Consume;
    BitsOfConcat(ZeroBytes(k), tail);
    ZeroBytesBits(k);
    ConsumeConcat(ZERO, Zeros(8 * k), BitsOf(tail));
    ConsumeZeros(ZERO, 8 * k);
    AdvanceZero(8 * k);
  }

  // The length bytes of a zero file, stretched to exactly four.
  function FourLengthBytes(n: nat): (s: seq<bv8>)
    requires |LengthBytes(n)| <= 4
    ensures |s| == 4
  {
    ZeroBytes(4 - |LengthBytes(n)|) + LengthBytes(n)
  }

  lemma ZeroFileCrc(n: nat)
    requires |LengthBytes(n)| <= 4
    ensures WordBits(Crc(ZeroBytes(n))) == Complement(Consume(ZERO, BitsOf(FourLengthBytes(n))))
  {
    hide BitsOf; hide ZeroBytes; hide Consume; hide Crc; hide LengthBytes; hide WordBits;
    CrcBits(ZeroBytes(n));
    ZerosFromZero(n, LengthBytes(n));
    ZerosFromZero(4 - |LengthBytes(n)|, LengthBytes(n));
  }

  lemma SameZeroFileCrc(n: nat, m: nat)
    requires |LengthBytes(n)| <= 4 && |LengthBytes(m)| <= 4
    ensures Crc(ZeroBytes(n)) == Crc(ZeroBytes(m)) <==> FourLengthBytes(n) == FourLengthBytes(m)
  {
    hide BitsOf; hide ZeroBytes; hide Consume; hide Crc; hide LengthBytes; hide WordBits; hide FourLengthBytes;
    ZeroFileCrc(n);
    ZeroFileCrc(m);
    var x, y := FourLengthBytes(n), FourLengthBytes(m);
    if Crc(ZeroBytes(n)) == Crc(ZeroBytes(m)) {
      ComplementInjective(Consume(ZERO, BitsOf(x)), Consume(ZERO, BitsOf(y)));
      ShortStringsDiffer(ZERO, BitsOf(x), BitsOf(y));
      BitsOfInjective(x, y);
    }
    if x == y {
      WordBitsInjective(Crc(ZeroBytes(n)), Crc(ZeroBytes(m)));
    }
  }

  ghost predicate PowerApart(n: nat, m: nat) {
    exists k: nat :: n == m * Pow256(k) || m == n * Pow256(k)
  }

  lemma FourBytesApart(n: nat, m: nat)
    requires |LengthBytes(m)| <= |LengthBytes(n)| <= 4
    ensures FourLengthBytes(n) == FourLengthBytes(m) ==> PowerApart(n, m)
  {
    hide LengthBytes;
    var k := |LengthBytes(n)| - |LengthBytes(m)|;
    if FourLengthBytes(n) == FourLengthBytes(m) {
      var lead := 4 - |LengthBytes(n)|;
      assert FourLengthBytes(n)[lead..] == LengthBytes(n);
      assert FourLengthBytes(m)[lead..] == ZeroBytes(k) + LengthBytes(m);
      ZerosInFront(n, m, k);
    }
  }

  lemma ApartFourBytes(n: nat, m: nat, k: nat)
    requires m > 0 && n == m * Pow256(k)
    requires |LengthBytes(n)| <= 4
    ensures |LengthBytes(m)| <= 4 && FourLengthBytes(n) == FourLengthBytes(m)
  {
    hide LengthBytes;
    ShiftedLength(m, k);
    var lead := 4 - |LengthBytes(n)|;
    assert ZeroBytes(lead) + ZeroBytes(k) == ZeroBytes(lead + k);
    assert FourLengthBytes(n) == ZeroBytes(lead) + (ZeroBytes(k) + LengthBytes(m))
        == ZeroBytes(lead + k) + LengthBytes(m);
  }

  // Two zero files collide exactly when one length is the other times a power
  // of 256.
  lemma ZeroFileCollisions(n: nat, m: nat)
    requires 0 < n < 0x1_0000_0000 && 0 < m < 0x1_0000_0000
    ensures Crc(ZeroBytes(n)) == Crc(ZeroBytes(m)) <==> PowerApart(n, m)
  {
    hide LengthBytes; hide Crc; hide FourLengthBytes; hide ZeroBytes; hide PowerApart;
    FourBytesEnough();
    LengthBound(n, 4);
    LengthBound(m, 4);
    SameZeroFileCrc(n, m);
    if |LengthBytes(m)| <= |LengthBytes(n)| {
      FourBytesApart(n, m);
    } else {
      FourBytesApart(m, n);
      PowerApartSymmetric(n, m);
    }
    if PowerApart(n, m) { ApartSameBytes(n, m); }
  }

  lemma FourBytesEnough()
    ensures Pow256(4) == 0x1_0000_0000
  {
    assert Pow256(1) == 256 && Pow256(2) == 0x1_0000 && Pow256(3) == 0x100_0000;
  }

  lemma PowerApartSymmetric(n: nat, m: nat)
    ensures PowerApart(n, m) <==> PowerApart(m, n)
  {}

  lemma ApartSameBytes(n: nat, m: nat)
    requires n > 0 && m > 0 && |LengthBytes(n)| <= 4 && |LengthBytes(m)| <= 4
    requires PowerApart(n, m)
    ensures FourLengthBytes(n) == FourLengthBytes(m)
  {
    hide LengthBytes; hide FourLengthBytes;
    var k: nat :| n == m * Pow256(k) || m == n * Pow256(k);
    if n == m * Pow256(k) { ApartFourBytes(n, m, k); } else { ApartFourBytes(m, n, k); }
  }
}
