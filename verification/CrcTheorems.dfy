// What the checksum detects, and exactly what it cannot tell apart.
module CrcTheorems {
  import opened Bits
  import opened Word
  import opened Register
  import opened TableProof
  import opened Checksum

  // ---------------------------------------------------------------------
  // Bytes and bits determine each other.

  lemma ByteBitsInjective(x: bv8, y: bv8)
    requires ByteBits(x) == ByteBits(y)
    ensures x == y
  {
    hide ByteBits; hide WordBits;
    ByteWordBits(x);
    ByteWordBits(y);
    WordBitsInjective((x as bv32) << 24, (y as bv32) << 24);
  }

  lemma {:induction false} BitsOfInjective(a: seq<bv8>, b: seq<bv8>)
    requires |a| == |b| && BitsOf(a) == BitsOf(b)
    ensures a == b
    decreases |a|
  {
    hide ByteBits;
    if a == [] {
    } else {
      var n := |a| - 1;
      var x, y := BitsOf(a), BitsOf(b);
      assert x[..8 * n] == BitsOf(a[..n]) && y[..8 * n] == BitsOf(b[..n]);
      assert x[8 * n..] == ByteBits(a[n]) && y[8 * n..] == ByteBits(b[n]);
      BitsOfInjective(a[..n], b[..n]);
      ByteBitsInjective(a[n], b[n]);
      assert a == a[..n] + [a[n]] && b == b[..n] + [b[n]];
    }
  }

  function ByteOfBits(s: seq<bool>): bv8
    requires |s| == 8
  {
    (if s[0] then 0x80 else 0) | (if s[1] then 0x40 else 0) | (if s[2] then 0x20 else 0) | (if s[3] then 0x10 else 0)
    | (if s[4] then 0x08 else 0) | (if s[5] then 0x04 else 0) | (if s[6] then 0x02 else 0) | (if s[7] then 0x01 else 0)
  }

  lemma ByteOfBitsInverse(s: seq<bool>)
    requires |s| == 8
    ensures ByteBits(ByteOfBits(s)) == s
  {
    hide ByteBits;
    ByteMasks(ByteOfBits(s));
  }

  // ---------------------------------------------------------------------
  // Burst detection.

  // x and y agree outside the 32 bits that start at bit p.
  ghost predicate SameOutside(x: seq<bool>, y: seq<bool>, p: nat) {
    |x| == |y| && forall i | 0 <= i < |x| :: i < p || p + 32 <= i ==> x[i] == y[i]
  }

  lemma WindowDecides(x: seq<bool>, y: seq<bool>, p: nat)
    requires SameOutside(x, y, p)
    requires Consume(ZERO, x) == Consume(ZERO, y)
    ensures x == y
  {
    hide Consume;
    if p < |x| {
      var q := if p + 32 < |x| then p + 32 else |x|;
      WindowParts(x, y, p, q);
      var pre, suf := x[..p], x[q..];
      ConsumeConcat(ZERO, pre + x[p..q], suf);
      ConsumeConcat(ZERO, pre + y[p..q], suf);
      ConsumeInjective(Consume(ZERO, pre + x[p..q]), Consume(ZERO, pre + y[p..q]), suf);
      ConsumeConcat(ZERO, pre, x[p..q]);
      ConsumeConcat(ZERO, pre, y[p..q]);
      ShortStringsDiffer(Consume(ZERO, pre), x[p..q], y[p..q]);
    }
  }

  lemma WindowParts(x: seq<bool>, y: seq<bool>, p: nat, q: nat)
    requires SameOutside(x, y, p) && p <= q <= |x| && (q == |x| || q == p + 32)
    ensures x == x[..p] + x[p..q] + x[q..]
    ensures y == x[..p] + y[p..q] + x[q..]
  {
    assert y[..p] == x[..p];
    assert y[q..] == x[q..];
    assert y == y[..p] + y[p..q] + y[q..];
  }

  // Equal checksums of equally long data mean equal registers after the data.
  lemma SameCrcSameRegister(a: seq<bv8>, b: seq<bv8>)
    requires |a| == |b|
    ensures Crc(a) == Crc(b) <==> Consume(ZERO, BitsOf(a)) == Consume(ZERO, BitsOf(b))
  {
    hide WordBits; hide Consume; hide BitsOf; hide Crc;
    var len := LengthBytes(|a|);
    CrcBits(a);
    CrcBits(b);
    BitsOfConcat(a, len);
    BitsOfConcat(b, len);
    ConsumeConcat(ZERO, BitsOf(a), BitsOf(len));
    ConsumeConcat(ZERO, BitsOf(b), BitsOf(len));
    var x, y := Consume(ZERO, Message(a)), Consume(ZERO, Message(b));
    if Crc(a) == Crc(b) {
      ComplementInjective(x, y);
      ConsumeInjective(Consume(ZERO, BitsOf(a)), Consume(ZERO, BitsOf(b)), BitsOf(len));
    }
    if Consume(ZERO, BitsOf(a)) == Consume(ZERO, BitsOf(b)) {
      WordBitsInjective(Crc(a), Crc(b));
    }
  }

  lemma ComplementInjective(x: seq<bool>, y: seq<bool>)
    requires |x| == |y| && Complement(x) == Complement(y)
    ensures x == y
  {
    forall i | 0 <= i < |x| ensures x[i] == y[i] {
      assert Complement(x)[i] == Complement(y)[i];
    }
  }

  lemma BurstDetected(a: seq<bv8>, b: seq<bv8>, p: nat)
    requires |a| == |b| && a != b
    requires SameOutside(BitsOf(a), BitsOf(b), p)
    ensures Crc(a) != Crc(b)
  {
    hide WordBits; hide Consume; hide BitsOf; hide Crc;
    SameCrcSameRegister(a, b);
    if Crc(a) == Crc(b) {
      WindowDecides(BitsOf(a), BitsOf(b), p);
      BitsOfInjective(a, b);
    }
  }

  // ---------------------------------------------------------------------
  // Any four adjacent bytes can be chosen, in exactly one way, to give any
  // checksum.

  lemma WindowInMiddle(pre: seq<bool>, w: seq<bool>, w': seq<bool>, suf: seq<bool>)
    requires |w| == |w'| == 32
    ensures SameOutside(pre + w + suf, pre + w' + suf, |pre|)
  {}

  lemma MiddleDiffers<T>(pre: seq<T>, w: seq<T>, w': seq<T>, suf: seq<T>)
    requires |w| == |w'| && pre + w + suf == pre + w' + suf
    ensures w == w'
  {
    assert (pre + w + suf)[|pre|..|pre| + |w|] == w;
    assert (pre + w' + suf)[|pre|..|pre| + |w|] == w';
  }

  lemma FourBytesUnique(pre: seq<bv8>, w: seq<bv8>, w': seq<bv8>, suf: seq<bv8>)
    requires |w| == |w'| == 4
    requires Crc(pre + w + suf) == Crc(pre + w' + suf)
    ensures w == w'
  {
    hide BitsOf; hide Crc; hide SameOutside;
    if w != w' {
      BitsOfConcat(pre + w, suf);
      BitsOfConcat(pre + w', suf);
      BitsOfConcat(pre, w);
      BitsOfConcat(pre, w');
      WindowInMiddle(BitsOf(pre), BitsOf(w), BitsOf(w'), BitsOf(suf));
      if pre + w + suf == pre + w' + suf { MiddleDiffers(pre, w, w', suf); }
      BurstDetected(pre + w + suf, pre + w' + suf, 8 * |pre|);
    }
  }

  // The 32 bits that take register r to register q.
  lemma Steer(r: Reg, q: Reg) returns (d: Reg)
    ensures Consume(r, d) == q
  {
    d := Xor(r, Retreat(q, 32));
    assert Padded(d) == d;
    assert Xor(r, d) == Retreat(q, 32);
    Absorb(r, d);
    RetreatInverse(q, 32);
  }

  lemma FourBytesOfBits(d: Reg) returns (w: seq<bv8>)
    ensures |w| == 4 && BitsOf(w) == d
  {
    hide ByteBits; hide ByteOfBits;
    w := [ByteOfBits(d[..8]), ByteOfBits(d[8..16]), ByteOfBits(d[16..24]), ByteOfBits(d[24..])];
    ByteOfBitsInverse(d[..8]); ByteOfBitsInverse(d[8..16]); ByteOfBitsInverse(d[16..24]); ByteOfBitsInverse(d[24..]);
    FourByteBits(w);
    assert d == d[..8] + d[8..16] + d[16..24] + d[24..];
  }

  lemma FourByteBits(w: seq<bv8>)
    requires |w| == 4
    ensures BitsOf(w) == ByteBits(w[0]) + ByteBits(w[1]) + ByteBits(w[2]) + ByteBits(w[3])
  {
    hide ByteBits;
    assert w[..3][..2] == w[..2] && w[..2][..1] == w[..1] && w[..1][..0] == [];
    assert BitsOf(w[..1]) == ByteBits(w[0]);
    assert BitsOf(w[..2]) == ByteBits(w[0]) + ByteBits(w[1]);
    assert BitsOf(w[..3]) == ByteBits(w[0]) + ByteBits(w[1]) + ByteBits(w[2]);
  }

  lemma FourBytesExist(pre: seq<bv8>, suf: seq<bv8>, target: bv32) returns (w: seq<bv8>)
    ensures |w| == 4 && Crc(pre + w + suf) == target
  {
    hide WordBits; hide Consume; hide BitsOf; hide Crc; hide Retreat; hide Advance; hide LengthBytes;
    var len := LengthBytes(|pre| + 4 + |suf|);
    var tail := BitsOf(suf + len);
    // The register before the tail that makes the tail end in ~target.
    var goal := Xor(Complement(WordBits(target)), Consume(ZERO, tail));
    var before := Retreat(goal, |tail|);
    RetreatInverse(goal, |tail|);
    ConsumeSplit(before, tail);
    assert Consume(before, tail) == Complement(WordBits(target));
    var d := Steer(Consume(ZERO, BitsOf(pre)), before);
    w := FourBytesOfBits(d);
    var data := pre + w + suf;
    assert data + len == pre + w + (suf + len);
    BitsOfConcat(pre + w, suf + len);
    BitsOfConcat(pre, w);
    ConsumeConcat(ZERO, BitsOf(pre + w), tail);
    ConsumeConcat(ZERO, BitsOf(pre), BitsOf(w));
    CrcBits(data);
    assert Complement(Complement(WordBits(target))) == WordBits(target);
    WordBitsInjective(Crc(data), target);
  }

  lemma FourBytesBijection(pre: seq<bv8>, suf: seq<bv8>, target: bv32)
    ensures exists w | |w| == 4 :: Crc(pre + w + suf) == target
    ensures forall w, w' | |w| == |w'| == 4 :: Crc(pre + w + suf) == target == Crc(pre + w' + suf) ==> w == w'
  {
    hide Crc;
    var w0 := FourBytesExist(pre, suf, target);
    forall w, w' | |w| == |w'| == 4 && Crc(pre + w + suf) == target == Crc(pre + w' + suf)
      ensures w == w'
    {
      FourBytesUnique(pre, w, w', suf);
    }
  }

  // ---------------------------------------------------------------------
  // Affinity.

  function XorBytes(a: seq<bv8>, b: seq<bv8>): (c: seq<bv8>)
    requires |a| == |b|
    ensures |c| == |a|
  {
    seq(|a|, i requires 0 <= i < |a| => a[i] ^ b[i])
  }

  lemma {:induction false} BitsOfXor(a: seq<bv8>, b: seq<bv8>)
    requires |a| == |b|
    ensures BitsOf(XorBytes(a, b)) == Xor(BitsOf(a), BitsOf(b))
    decreases |a|
  {
    hide ByteBits;
    if a == [] {
      assert BitsOf(XorBytes(a, b)) == [];
    } else {
      var n := |a| - 1;
      BitsOfXor(a[..n], b[..n]);
      XorBytesSnoc(a, b);
      ByteXorBits(a[n], b[n]);
      XorConcat(BitsOf(a[..n]), ByteBits(a[n]), BitsOf(b[..n]), ByteBits(b[n]));
    }
  }

  lemma XorBytesSnoc(a: seq<bv8>, b: seq<bv8>)
    requires |a| == |b| > 0
    ensures var n := |a| - 1; XorBytes(a, b)[..n] == XorBytes(a[..n], b[..n]) && XorBytes(a, b)[n] == a[n] ^ b[n]
  {}

  lemma ThreeXor(x: bv32, y: bv32, z: bv32)
    ensures Xor32(Xor32(x, y), z) == x ^ y ^ z
  {}

  // Three checksums of equally long data add up to the checksum of the sum.
  lemma CrcAffine(a: seq<bv8>, b: seq<bv8>, c: seq<bv8>)
    requires |a| == |b| == |c|
    ensures Crc(a) ^ Crc(b) ^ Crc(c) == Crc(XorBytes(XorBytes(a, b), c))
  {
    hide Crc; hide XorBytes; hide Xor32;
    CrcSum(a, b, c);
    ThreeXor(Crc(a), Crc(b), Crc(c));
  }

  lemma CrcSum(a: seq<bv8>, b: seq<bv8>, c: seq<bv8>)
    requires |a| == |b| == |c|
    ensures Xor32(Xor32(Crc(a), Crc(b)), Crc(c)) == Crc(XorBytes(XorBytes(a, b), c))
  {
    hide WordBits; hide Consume; hide Message; hide Crc; hide XorBytes; hide Xor32;
    var d := XorBytes(XorBytes(a, b), c);
    CrcBits(a); CrcBits(b); CrcBits(c); CrcBits(d);
    MessageSum(a, b, c);
    var x, y, z := Consume(ZERO, Message(a)), Consume(ZERO, Message(b)), Consume(ZERO, Message(c));
    XorZeros(ZERO);
    ConsumeLinear(ZERO, ZERO, Message(a), Message(b));
    ConsumeLinear(ZERO, ZERO, Xor(Message(a), Message(b)), Message(c));
    ComplementSum(x, y, z);
    Xor32Bits(Crc(a), Crc(b));
    Xor32Bits(Xor32(Crc(a), Crc(b)), Crc(c));
    WordBitsInjective(Xor32(Xor32(Crc(a), Crc(b)), Crc(c)), Crc(d));
  }

  lemma ComplementSum(x: seq<bool>, y: seq<bool>, z: seq<bool>)
    requires |x| == |y| == |z|
    ensures Complement(Xor(Xor(x, y), z)) == Xor(Xor(Complement(x), Complement(y)), Complement(z))
  {}

  lemma MessageSum(a: seq<bv8>, b: seq<bv8>, c: seq<bv8>)
    requires |a| == |b| == |c|
    ensures |Message(a)| == |Message(b)| == |Message(c)|
    ensures Message(XorBytes(XorBytes(a, b), c)) == Xor(Xor(Message(a), Message(b)), Message(c))
  {
    hide BitsOf; hide XorBytes; hide LengthBytes;
    var d := XorBytes(XorBytes(a, b), c);
    var len := LengthBytes(|a|);
    BitsOfConcat(a, len); BitsOfConcat(b, len); BitsOfConcat(c, len); BitsOfConcat(d, len);
    BitsOfXor(a, b);
    BitsOfXor(XorBytes(a, b), c);
    assert Message(d) == Xor(Xor(Message(a), Message(b)), Message(c));
  }

  // The register after a then b is that of b alone plus that of a moved on by
  // |b| zero bytes.
  lemma RegisterConcat(a: seq<bv8>, b: seq<bv8>)
    ensures FeedAll(0, a + b) == Xor32(FeedAll(0, b), FeedAll(FeedAll(0, a), ZeroBytes(|b|)))
  {
    hide WordBits; hide Consume; hide BitsOf; hide FeedAll; hide Advance; hide Xor32; hide ZeroBytes;
    var after := FeedAll(0, a);
    var z := ZeroBytes(|b|);
    WordZero();
    FeedAllBits(0, a + b);
    FeedAllBits(0, a);
    FeedAllBits(0, b);
    FeedAllBits(after, z);
    BitsOfConcat(a, b);
    ConsumeConcat(ZERO, BitsOf(a), BitsOf(b));
    ConsumeSplit(WordBits(after), BitsOf(b));
    ZeroBytesBits(|b|);
    ConsumeZeros(WordBits(after), 8 * |b|);
    Xor32Bits(FeedAll(0, b), FeedAll(after, z));
    WordBitsInjective(FeedAll(0, a + b), Xor32(FeedAll(0, b), FeedAll(after, z)));
  }

  function ZeroBytes(n: nat): (z: seq<bv8>)
    ensures |z| == n
  {
    seq(n, _ => 0)
  }

  lemma WordZero()
    ensures WordBits(0) == ZERO
  {
    hide Leading;
    LeadingZero(32);
  }

  lemma {:induction false} ZeroBytesBits(n: nat)
    ensures BitsOf(ZeroBytes(n)) == Zeros(8 * n)
  {
    hide ByteBits;
    if n == 0 {
    } else {
      assert ZeroBytes(n)[..n - 1] == ZeroBytes(n - 1);
      ZeroBytesBits(n - 1);
      ZeroByteBits();
    }
  }

  lemma ZeroByteBits()
    ensures ByteBits(0) == Zeros(8)
  {
    hide Leading;
    LeadingZero(8);
  }
}
