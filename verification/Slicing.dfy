// The seven further tables: what they hold, and that consuming eight bytes at
// a time with all eight tables reaches the register of the byte-wise loop.
module Slicing {
  import opened Bits
  import opened Word
  import opened Register
  import opened Tables
  import opened TableProof
  import opened Checksum
  import opened CrcTheorems

  // All eight tables, crctab[0] first.
  ghost predicate AreTables(t: seq<seq<bv32>>) {
    |t| == 8 && forall k | 0 <= k < 8 :: IsTable(t[k], k)
  }

  // t[k] is the program's crctab[k].
  ghost predicate OfProgram(t: seq<seq<bv32>>) {
    |t| == 8 && forall k | 0 <= k < 8 :: t[k] == Crctab(k)
  }

  lemma CrctabAreTables(t: seq<seq<bv32>>)
    requires OfProgram(t)
    ensures AreTables(t)
  {
    hide Crctab; hide IsTable;
    forall k | 0 <= k < 8 ensures IsTable(t[k], k) {
      CrctabIsTable(k);
    }
  }

  // crctab[k][i], for tables t that hold what they should.
  ghost function Lookup(t: seq<seq<bv32>>, k: nat, i: bv8): bv32
    requires AreTables(t) && k < 8
  {
    assert IsEntry(t[k], k, i);
    t[k][i as int]
  }

  lemma LookupBits(t: seq<seq<bv32>>, k: nat, i: bv8)
    requires AreTables(t) && k < 8
    ensures WordBits(Lookup(t, k, i)) == Advance(Padded(ByteBits(i)), 8 * (k + 1))
  {
    hide WordBits; hide Advance; hide Padded; hide ByteBits;
    assert IsEntry(t[k], k, i);
  }

  // Entry i of table k is the register after byte i and then k zero bytes.
  lemma LookupMeaning(t: seq<seq<bv32>>, k: nat, i: bv8)
    requires AreTables(t) && k < 8
    ensures Lookup(t, k, i) == FeedAll(0, [i] + ZeroBytes(k))
  {
    hide Lookup; hide WordBits; hide Advance; hide ByteBits; hide BitsOf; hide FeedAll; hide ZeroBytes; hide Consume;
    LookupBits(t, k, i);
    WordZero();
    FeedAllBits(0, [i] + ZeroBytes(k));
    BitsOfConcat([i], ZeroBytes(k));
    OneByteBits(i);
    ZeroBytesBits(k);
    ConsumeConcat(ZERO, ByteBits(i), Zeros(8 * k));
    Absorb(ZERO, ByteBits(i));
    XorZeros(Padded(ByteBits(i)));
    ConsumeZeros(Consume(ZERO, ByteBits(i)), 8 * k);
    AdvanceAdd(Padded(ByteBits(i)), 8, 8 * k);
    WordBitsInjective(Lookup(t, k, i), FeedAll(0, [i] + ZeroBytes(k)));
  }

  lemma OneByteBits(i: bv8)
    ensures BitsOf([i]) == ByteBits(i)
  {
    hide ByteBits;
    assert [i][..0] == [];
  }

  // Byte k of a word, most significant first.
  function ByteOf(r: bv32, k: nat): bv8
    requires k < 4
  {
    if k == 0 then (r >> 24) as bv8
    else if k == 1 then ((r >> 16) & 0xFF) as bv8
    else if k == 2 then ((r >> 8) & 0xFF) as bv8
    else (r & 0xFF) as bv8
  }

  function XorByte(x: bv8, y: bv8): bv8 { x ^ y }

  // Eight bytes at once: the old register goes into the first four bytes.
  ghost function SliceStep(t: seq<seq<bv32>>, r: bv32, w: seq<bv8>): bv32
    requires AreTables(t) && |w| == 8
  {
    Xor32(SliceFront(t, r, w), SliceBack(t, w))
  }

  ghost function SliceFront(t: seq<seq<bv32>>, r: bv32, w: seq<bv8>): bv32
    requires AreTables(t) && |w| == 8
  {
    Xor32(Xor32(Lookup(t, 7, XorByte(ByteOf(r, 0), w[0])), Lookup(t, 6, XorByte(ByteOf(r, 1), w[1]))),
          Xor32(Lookup(t, 5, XorByte(ByteOf(r, 2), w[2])), Lookup(t, 4, XorByte(ByteOf(r, 3), w[3]))))
  }

  ghost function SliceBack(t: seq<seq<bv32>>, w: seq<bv8>): bv32
    requires AreTables(t) && |w| == 8
  {
    Xor32(Xor32(Lookup(t, 3, w[4]), Lookup(t, 2, w[5])), Xor32(Lookup(t, 1, w[6]), Lookup(t, 0, w[7])))
  }

  ghost function TableFeed(t: seq<seq<bv32>>, r: bv32, b: bv8): bv32
    requires AreTables(t)
  {
    Xor32(r << 8, Lookup(t, 0, (r >> 24) as bv8 ^ b))
  }

  ghost function Sliced(t: seq<seq<bv32>>, r: bv32, data: seq<bv8>): bv32
    requires AreTables(t)
    decreases |data|
  {
    if data == [] then r
    else if |data| < 8 then Sliced(t, TableFeed(t, r, data[0]), data[1..])
    else Sliced(t, SliceStep(t, r, data[..8]), data[8..])
  }

  // A register is the sum of its four bytes, each in its place.
  lemma FourParts(x0: seq<bool>, x1: seq<bool>, x2: seq<bool>, x3: seq<bool>, n: nat)
    requires |x0| == |x1| == |x2| == |x3| == 8 && n >= 24
    ensures Advance(x0 + x1 + x2 + x3, n)
         == Xor(Xor(Advance(Padded(x0), n), Advance(Padded(x1), n - 8)),
                Xor(Advance(Padded(x2), n - 16), Advance(Padded(x3), n - 24)))
  {
    hide Advance;
    var p0, p1 := Padded(x0), Zeros(8) + x1 + Zeros(16);
    var p2, p3 := Zeros(16) + x2 + Zeros(8), Zeros(24) + x3;
    SumOfParts(x0, x1, x2, x3);
    AdvanceLinear(Xor(p0, p1), Xor(p2, p3), n);
    AdvanceLinear(p0, p1, n);
    AdvanceLinear(p2, p3, n);
    Part(x1, 8, n);
    Part(x2, 16, n);
    Part(x3, 24, n);
    assert Zeros(24) + x3 + Zeros(0) == p3;
  }

  lemma SumOfParts(x0: seq<bool>, x1: seq<bool>, x2: seq<bool>, x3: seq<bool>)
    requires |x0| == |x1| == |x2| == |x3| == 8
    ensures x0 + x1 + x2 + x3
         == Xor(Xor(Padded(x0), Zeros(8) + x1 + Zeros(16)), Xor(Zeros(16) + x2 + Zeros(8), Zeros(24) + x3))
  {}

  lemma Part(x: seq<bool>, p: nat, n: nat)
    requires |x| == 8 && p <= 24 && p <= n
    ensures Advance(Zeros(p) + x + Zeros(24 - p), n) == Advance(Padded(x), n - p)
  {
    hide Advance;
    var r := Zeros(p) + x + Zeros(24 - p);
    AdvanceAdd(r, p, n - p);
    AdvanceFree(r, p);
    assert r[p..] + Zeros(p) == Padded(x);
  }

  // Four looked-up words for one 32-bit string advanced by 8 * (k + 1) bits.
  lemma FourLookups(t: seq<seq<bv32>>, d: Reg, k: nat, i0: bv8, i1: bv8, i2: bv8, i3: bv8)
    requires AreTables(t) && 3 <= k < 8
    requires d == ByteBits(i0) + ByteBits(i1) + ByteBits(i2) + ByteBits(i3)
    ensures WordBits(Xor32(Xor32(Lookup(t, k, i0), Lookup(t, k - 1, i1)),
                           Xor32(Lookup(t, k - 2, i2), Lookup(t, k - 3, i3))))
         == Advance(d, 8 * (k + 1))
  {
    hide WordBits; hide Advance; hide ByteBits; hide Lookup; hide Xor32; hide Padded; hide Xor;
    var w0, w1, w2, w3 := Lookup(t, k, i0), Lookup(t, k - 1, i1), Lookup(t, k - 2, i2), Lookup(t, k - 3, i3);
    LookupBits(t, k, i0); LookupBits(t, k - 1, i1); LookupBits(t, k - 2, i2); LookupBits(t, k - 3, i3);
    Xor32Bits(w0, w1);
    Xor32Bits(w2, w3);
    Xor32Bits(Xor32(w0, w1), Xor32(w2, w3));
    FourParts(ByteBits(i0), ByteBits(i1), ByteBits(i2), ByteBits(i3), 8 * (k + 1));
  }

  lemma OtherBytes(r: bv32)
    ensures ((r >> 16) & 0xFF) as bv8 == ((r << 8) >> 24) as bv8
    ensures ((r >> 8) & 0xFF) as bv8 == (((r << 8) << 8) >> 24) as bv8
    ensures (r & 0xFF) as bv8 == ((((r << 8) << 8) << 8) >> 24) as bv8
  {}

  lemma BytesOfWord(r: bv32)
    ensures WordBits(r)
         == ByteBits(ByteOf(r, 0)) + ByteBits(ByteOf(r, 1)) + ByteBits(ByteOf(r, 2)) + ByteBits(ByteOf(r, 3))
  {
    hide WordBits; hide ByteBits;
    var r1 := r << 8; var r2 := r1 << 8; var r3 := r2 << 8;
    TopByteBits(r); TopByteBits(r1); TopByteBits(r2); TopByteBits(r3);
    OtherBytes(r);
    WordShift8(r); WordShift8(r1); WordShift8(r2);
    EightAtATime(WordBits(r), WordBits(r1), WordBits(r2), WordBits(r3));
  }

  lemma EightAtATime(s: seq<bool>, s1: seq<bool>, s2: seq<bool>, s3: seq<bool>)
    requires |s| == 32 && s1 == s[8..] + Zeros(8) && s2 == s1[8..] + Zeros(8) && s3 == s2[8..] + Zeros(8)
    ensures s == s[..8] + s1[..8] + s2[..8] + s3[..8]
  {
    assert s1[..8] == s[8..16] && s2[..8] == s[16..24] && s3[..8] == s[24..];
  }

  lemma SliceFrontBits(t: seq<seq<bv32>>, r: bv32, w: seq<bv8>)
    requires AreTables(t) && |w| == 8
    ensures WordBits(SliceFront(t, r, w)) == Advance(Xor(WordBits(r), BitsOf(w[..4])), 64)
  {
    hide WordBits; hide Advance; hide ByteBits; hide Lookup; hide Xor32; hide AreTables; hide BitsOf; hide Xor;
    hide ByteOf; hide XorByte;
    BytesOfWord(r);
    FourByteBits(w[..4]);
    forall k | 0 <= k < 4 {
      XorByteBits(ByteOf(r, k), w[k]);
    }
    XorFour(ByteBits(ByteOf(r, 0)), ByteBits(ByteOf(r, 1)), ByteBits(ByteOf(r, 2)), ByteBits(ByteOf(r, 3)),
            ByteBits(w[0]), ByteBits(w[1]), ByteBits(w[2]), ByteBits(w[3]));
    FourLookups(t, Xor(WordBits(r), BitsOf(w[..4])), 7, XorByte(ByteOf(r, 0), w[0]), XorByte(ByteOf(r, 1), w[1]),
                XorByte(ByteOf(r, 2), w[2]), XorByte(ByteOf(r, 3), w[3]));
  }

  lemma XorByteBits(x: bv8, y: bv8)
    ensures ByteBits(XorByte(x, y)) == Xor(ByteBits(x), ByteBits(y))
  {
    hide ByteBits;
    ByteXorBits(x, y);
  }

  lemma SliceBackBits(t: seq<seq<bv32>>, w: seq<bv8>)
    requires AreTables(t) && |w| == 8
    ensures WordBits(SliceBack(t, w)) == Advance(BitsOf(w[4..]), 32)
  {
    hide WordBits; hide Advance; hide ByteBits; hide Lookup; hide Xor32; hide AreTables; hide BitsOf; hide Xor;
    FourByteBits(w[4..]);
    FourLookups(t, BitsOf(w[4..]), 3, w[4], w[5], w[6], w[7]);
  }

  // The register after a sliced step is the register after its eight bytes.
  lemma SliceStepIsEightFeeds(t: seq<seq<bv32>>, r: bv32, w: seq<bv8>)
    requires AreTables(t) && |w| == 8
    ensures SliceStep(t, r, w) == FeedAll(r, w)
  {
    hide WordBits; hide Advance; hide Xor32; hide AreTables; hide BitsOf; hide Consume; hide FeedAll; hide SliceFront;
    hide SliceBack; hide Xor;
    SliceFrontBits(t, r, w);
    SliceBackBits(t, w);
    EightBytes(WordBits(r), BitsOf(w[..4]), BitsOf(w[4..]));
    FeedAllBits(r, w);
    BitsOfConcat(w[..4], w[4..]);
    assert w == w[..4] + w[4..];
    Xor32Bits(SliceFront(t, r, w), SliceBack(t, w));
    WordBitsInjective(SliceStep(t, r, w), FeedAll(r, w));
  }

  lemma XorFour(a0: seq<bool>, a1: seq<bool>, a2: seq<bool>, a3: seq<bool>,
                b0: seq<bool>, b1: seq<bool>, b2: seq<bool>, b3: seq<bool>)
    requires |a0| == |a1| == |a2| == |a3| == |b0| == |b1| == |b2| == |b3| == 8
    ensures Xor(a0 + a1 + a2 + a3, b0 + b1 + b2 + b3) == Xor(a0, b0) + Xor(a1, b1) + Xor(a2, b2) + Xor(a3, b3)
  {}

  lemma EightBytes(r: Reg, front: seq<bool>, back: seq<bool>)
    requires |front| == |back| == 32
    ensures Consume(r, front + back) == Xor(Advance(Xor(r, front), 64), Advance(back, 32))
  {
    hide Advance; hide Consume;
    ConsumeConcat(r, front, back);
    Absorb(r, front);
    Absorb(Consume(r, front), back);
    assert Padded(front) == front && Padded(back) == back;
    AdvanceLinear(Advance(Xor(r, front), 32), back, 32);
    AdvanceAdd(Xor(r, front), 32, 32);
  }

  // Eight bytes at a time, then the rest byte by byte: the same register.
  lemma {:induction false} SlicedIsByteWise(t: seq<seq<bv32>>, r: bv32, data: seq<bv8>)
    requires AreTables(t)
    ensures Sliced(t, r, data) == FeedAll(r, data)
    decreases |data|
  {
    hide SliceStep; hide TableFeed; hide AreTables; hide Feed;
    if data == [] {
    } else if |data| < 8 {
      TableFeedIsFeed(t, r, data[0]);
      assert data[..1] == [data[0]] && [data[0]][..0] == [];
      assert FeedAll(r, [data[0]]) == Feed(r, data[0]);
      SlicedIsByteWise(t, TableFeed(t, r, data[0]), data[1..]);
      FeedAllConcat(r, data[..1], data[1..]);
      assert data == data[..1] + data[1..];
    } else {
      SliceStepIsEightFeeds(t, r, data[..8]);
      SlicedIsByteWise(t, SliceStep(t, r, data[..8]), data[8..]);
      FeedAllConcat(r, data[..8], data[8..]);
      assert data == data[..8] + data[8..];
    }
  }

  lemma TableFeedIsFeed(t: seq<seq<bv32>>, r: bv32, b: bv8)
    requires AreTables(t)
    ensures TableFeed(t, r, b) == Feed(r, b)
  {
    hide IsTable; hide Feed; hide Xor32;
    TableStep(t[0], r, b);
  }

  lemma {:induction false} FeedAllConcat(r: bv32, a: seq<bv8>, b: seq<bv8>)
    ensures FeedAll(r, a + b) == FeedAll(FeedAll(r, a), b)
    decreases |b|
  {
    hide Feed;
    if b == [] {
      assert a + b == a;
    } else {
      var n := |b| - 1;
      assert (a + b)[..|a + b| - 1] == a + b[..n];
      FeedAllConcat(r, a, b[..n]);
    }
  }

  // ---------------------------------------------------------------------
  // The same of the program's own tables.

  ghost predicate EntryMeans(t: seq<seq<bv32>>, k: nat, i: bv8) {
    AreTables(t) && k < 8 && Lookup(t, k, i) == FeedAll(0, [i] + ZeroBytes(k))
  }

  ghost predicate SlicedAgrees(t: seq<seq<bv32>>, r: bv32, data: seq<bv8>) {
    && AreTables(t)
    && Sliced(t, r, data) == FeedAll(r, data)
    && Crc(data) == !Sliced(t, 0, data + LengthBytes(|data|))
  }

  // crctab[k][i], for every k and i, is the register after byte i and then k
  // zero bytes.
  lemma CrctabMeaning(t: seq<seq<bv32>>, k: nat, i: bv8)
    requires OfProgram(t) && k < 8
    ensures EntryMeans(t, k, i)
  {
    hide AreTables; hide Lookup; hide FeedAll; hide ZeroBytes; hide OfProgram;
    CrctabAreTables(t);
    LookupMeaning(t, k, i);
  }

  // Eight bytes at a time through the program's eight tables reaches the
  // register of the byte-wise loop, and the program's checksum.
  lemma CrctabSlicedIsByteWise(t: seq<seq<bv32>>, r: bv32, data: seq<bv8>)
    requires OfProgram(t)
    ensures SlicedAgrees(t, r, data)
  {
    hide AreTables; hide FeedAll; hide Sliced; hide LengthBytes; hide OfProgram; hide Crc;
    CrctabAreTables(t);
    SlicedIsByteWise(t, r, data);
    SlicedIsByteWise(t, 0, data + LengthBytes(|data|));
    CrcOfRegister(data);
  }

  lemma CrcOfRegister(data: seq<bv8>)
    ensures Crc(data) == !FeedAll(0, data + LengthBytes(|data|))
  {}

  // There are such t, so the two statements above speak of something.
  lemma CrctabsExist() returns (t: seq<seq<bv32>>)
    ensures OfProgram(t)
  {
    hide Crctab;
    t := [Crctab(0), Crctab(1), Crctab(2), Crctab(3), Crctab(4), Crctab(5), Crctab(6), Crctab(7)];
    forall k | 0 <= k < 8 ensures t[k] == Crctab(k) {
      if k == 0 {} else if k == 1 {} else if k == 2 {} else if k == 3 {}
      else if k == 4 {} else if k == 5 {} else if k == 6 {} else {}
    }
  }
}
