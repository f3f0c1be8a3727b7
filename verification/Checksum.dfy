// The table-driven CRC of checksum.cpp and the bit-serial register it refines.
module Checksum {
  import opened Bits
  import opened Word
  import opened Register
  import opened Tables
  import opened TableProof

  // ---------------------------------------------------------------------
  // The reference: one bit of division at a time.

  function Shifted(r: bv32, n: nat): bv32
    decreases n, r
  {
    if n == 0 then r else ShiftWord(Shifted(r, n - 1))
  }

  // The register after one more byte.
  function Feed(r: bv32, b: bv8): bv32 {
    Shifted(Xor32(r, (b as bv32) << 24), 8)
  }

  function FeedAll(r: bv32, data: seq<bv8>): bv32
    decreases |data|
  {
    if data == [] then r else Feed(FeedAll(r, data[..|data| - 1]), data[|data| - 1])
  }

  // The length, least significant byte first, without trailing zero bytes.
  function LengthBytes(n: nat): seq<bv8> {
    if n == 0 then [] else [(n % 256) as bv8] + LengthBytes(n / 256)
  }

  function Crc(data: seq<bv8>): bv32 {
    !FeedAll(0, data + LengthBytes(|data|))
  }

  function BitsOf(data: seq<bv8>): (s: seq<bool>)
    ensures |s| == 8 * |data|
    decreases |data|
  {
    if data == [] then [] else BitsOf(data[..|data| - 1]) + ByteBits(data[|data| - 1])
  }

  lemma {:induction false} ShiftedBits(r: bv32, n: nat)
    ensures WordBits(Shifted(r, n)) == Advance(WordBits(r), n)
    decreases n
  {
    hide WordBits; hide ShiftWord; hide Shift1;
    if n == 0 {
    } else {
      ShiftedBits(r, n - 1);
      ShiftWordBits(Shifted(r, n - 1));
    }
  }

  lemma ByteWordBits(b: bv8)
    ensures WordBits((b as bv32) << 24) == Padded(ByteBits(b))
  {
    hide Leading; hide Shl;
    var x := (b as bv32) << 24;
    LeadingConcat(x, 8, 24);
    Shl8(x);
    assert x << 8 == 0;
    LeadingZero(24);
  }

  // Feeding a byte is consuming its eight bits.
  lemma FeedBits(r: bv32, b: bv8)
    ensures WordBits(Feed(r, b)) == Consume(WordBits(r), ByteBits(b))
  {
    hide WordBits; hide ByteBits; hide Shifted; hide Xor32; hide Advance; hide Consume;
    Xor32Bits(r, (b as bv32) << 24);
    ByteWordBits(b);
    ShiftedBits(Xor32(r, (b as bv32) << 24), 8);
    Absorb(WordBits(r), ByteBits(b));
  }

  lemma Xor32Bits(x: bv32, y: bv32)
    ensures WordBits(Xor32(x, y)) == Xor(WordBits(x), WordBits(y))
  {
    hide Leading; hide Xor32;
    LeadingXor(x, y, 32);
  }

  lemma {:induction false} FeedAllBits(r: bv32, data: seq<bv8>)
    ensures WordBits(FeedAll(r, data)) == Consume(WordBits(r), BitsOf(data))
    decreases |data|
  {
    hide WordBits; hide ByteBits; hide Feed; hide Consume;
    if data == [] {
      ConsumeNothing(WordBits(r));
    } else {
      var n := |data| - 1;
      FeedAllBits(r, data[..n]);
      FeedBits(FeedAll(r, data[..n]), data[n]);
      ConsumeConcat(WordBits(r), BitsOf(data[..n]), ByteBits(data[n]));
    }
  }

  lemma ConsumeNothing(r: Reg)
    ensures Consume(r, []) == r
  {}

  lemma {:induction false} BitsOfConcat(a: seq<bv8>, b: seq<bv8>)
    ensures BitsOf(a + b) == BitsOf(a) + BitsOf(b)
    decreases |b|
  {
    hide ByteBits;
    if b == [] {
      assert a + b == a;
    } else {
      var n := |b| - 1;
      assert (a + b)[..|a + b| - 1] == a + b[..n];
      BitsOfConcat(a, b[..n]);
    }
  }

  // What is divided: the data followed by its length.
  function Message(data: seq<bv8>): seq<bool> {
    BitsOf(data + LengthBytes(|data|))
  }

  lemma CrcBits(data: seq<bv8>)
    ensures WordBits(Crc(data)) == Complement(Consume(ZERO, Message(data)))
  {
    hide Leading; hide Consume; hide BitsOf; hide FeedAll; hide LengthBytes;
    FeedAllBits(0, data + LengthBytes(|data|));
    LeadingZero(32);
    WordNot(FeedAll(0, data + LengthBytes(|data|)));
  }

  // ---------------------------------------------------------------------
  // The table form.

  lemma TopByteMasks(x: bv32, y: bv32)
    requires x & 0xFF00_0000 == y & 0xFF00_0000
    ensures Leading(x, 8) == Leading(y, 8)
  {
    hide Leading; hide Shl;
    Leading4(x); Leading4(y);
    Leading4(x << 4); Leading4(y << 4);
    LeadingConcat(x, 4, 4); LeadingConcat(y, 4, 4);
  }

  lemma TopByteBits(r: bv32)
    ensures ByteBits((r >> 24) as bv8) == WordBits(r)[..8]
  {
    hide Leading; hide Shl;
    var x := (((r >> 24) as bv8) as bv32) << 24;
    assert x & 0xFF00_0000 == r & 0xFF00_0000;
    TopByteMasks(x, r);
    LeadingConcat(r, 8, 24);
  }

  lemma ByteXorWord(x: bv8, y: bv8)
    ensures ((x ^ y) as bv32) << 24 == Xor32((x as bv32) << 24, (y as bv32) << 24)
  {}

  lemma ByteXorBits(x: bv8, y: bv8)
    ensures ByteBits(x ^ y) == Xor(ByteBits(x), ByteBits(y))
  {
    hide Leading; hide Xor32;
    ByteXorWord(x, y);
    LeadingXor((x as bv32) << 24, (y as bv32) << 24, 8);
  }

  // Shifting a byte out of the top: what leaves is looked up, the rest moves.
  lemma ByteStep(r: Reg, bits: seq<bool>)
    requires |bits| == 8
    ensures Consume(r, bits) == Xor(r[8..] + Zeros(8), Advance(Padded(Xor(r[..8], bits)), 8))
  {
    hide Consume; hide Advance;
    Absorb(r, bits);
    var top, rest := Padded(Xor(r[..8], bits)), Zeros(8) + r[8..];
    assert Xor(r, Padded(bits)) == Xor(rest, top);
    AdvanceLinear(rest, top, 8);
    AdvanceFree(rest, 8);
    assert Advance(rest, 8) == r[8..] + Zeros(8);
  }

  // One lookup in table 0 does the work of eight shifts.
  lemma TableStep(crctab: seq<bv32>, r: bv32, b: bv8)
    requires IsTable(crctab, 0)
    ensures var i := (((r >> 24) as bv8) ^ b) as int;
            0 <= i < |crctab| && Xor32(r << 8, crctab[i]) == Feed(r, b)
  {
    hide WordBits; hide ByteBits; hide Advance; hide Consume; hide Xor32; hide Feed; hide Xor;
    var top := (r >> 24) as bv8;
    assert IsEntry(crctab, 0, top ^ b);
    var t := crctab[(top ^ b) as int];
    TopByteBits(r);
    ByteXorBits(top, b);
    WordShift8(r);
    Xor32Bits(r << 8, t);
    ByteStep(WordBits(r), ByteBits(b));
    FeedBits(r, b);
    WordBitsInjective(Xor32(r << 8, t), Feed(r, b));
  }

  // Bytes and their numbers.

  lemma NextByte(b: bv8)
    requires b as int < 255
    ensures (b + 1) as int == b as int + 1
  {}

  lemma SameByte(b: bv8)
    ensures (b as int) as bv8 == b
  {}

  lemma {:induction false} ByteOf(n: nat) returns (b: bv8)
    requires n < 256
    ensures b as int == n
  {
    if n == 0 {
      b := 0;
    } else {
      var c := ByteOf(n - 1);
      NextByte(c);
      b := c + 1;
    }
  }

  lemma ByteValue(n: nat)
    requires n < 256
    ensures (n as bv8) as int == n
  {
    var b := ByteOf(n);
    SameByte(b);
  }

  // The program keeps the register in a 64-bit variable.
  function Wide(r: bv32): bv64 { r as bv64 }

  // The expression assigned to `tabidx`.
  function TableIndex(s: bv64, b: bv8): bv32 {
    (((s >> 24) ^ (b as bv64)) & 0xFFFF_FFFF) as bv32
  }

  // The expression assigned to `s`, the table entry being t.
  function NextState(s: bv64, t: bv32): bv64 {
    ((s << 8) & 0xFFFF_FFFF) ^ (t as bv64)
  }

  lemma WideIndex(r: bv32, b: bv8)
    ensures TableIndex(Wide(r), b) == (((r >> 24) as bv8) ^ b) as bv32
  {}

  lemma IndexOfByte(x: bv8)
    ensures (x as bv32) as int == x as int
  {}

  lemma WideNext(r: bv32, t: bv32)
    ensures NextState(Wide(r), t) == Wide(Xor32(r << 8, t))
  {}

  lemma WideComplement(r: bv32)
    ensures !Wide(r) & 0xFFFF_FFFF == Wide(!r)
  {}

  lemma WideStep(crctab: seq<bv32>, r: bv32, b: bv8)
    requires IsTable(crctab, 0)
    ensures 0 <= TableIndex(Wide(r), b) as int < |crctab|
    ensures NextState(Wide(r), crctab[TableIndex(Wide(r), b) as int]) == Wide(Feed(r, b))
  {
    hide IsTable; hide Feed; hide Xor32; hide TableIndex; hide NextState; hide Wide;
    TableStep(crctab, r, b);
    var i := ((r >> 24) as bv8) ^ b;
    WideIndex(r, b);
    IndexOfByte(i);
    WideNext(r, crctab[i as int]);
  }

  lemma FedThrough(r: bv32, data: seq<bv8>, i: nat)
    requires i < |data|
    ensures FeedAll(r, data[..i + 1]) == Feed(FeedAll(r, data[..i]), data[i])
  {
    assert data[..i + 1][..i] == data[..i];
  }

  lemma FedMore(r: bv32, fed: seq<bv8>, c: bv8)
    ensures FeedAll(r, fed + [c]) == Feed(FeedAll(r, fed), c)
  {
    assert (fed + [c])[..|fed|] == fed;
  }

  lemma LengthSplit(fed: seq<bv8>, m: nat)
    requires m != 0
    ensures fed + LengthBytes(m) == (fed + [(m % 256) as bv8]) + LengthBytes(m / 256)
  {}

  method Memcrc(b: array<bv8>, n: nat) returns (crc: bv64)
    requires n <= b.Length
    requires n < 0x8000_0000
    ensures crc == Wide(Crc(b[..n]))
  {
    hide Crctab; hide IsTable; hide Feed; hide FeedAll; hide LengthBytes; hide Wide; hide TableIndex; hide NextState;
    ghost var data := b[..n];
    ghost var r: bv32 := 0;
    CrctabIsTable(0);
    var s: bv64 := 0;
    StartState();
    for i := 0 to n
      invariant r == FeedAll(0, data[..i])
      invariant s == Wide(r)
    {
      WideStep(Crctab(0), r, b[i]);
      var tabidx := TableIndex(s, b[i]);
      s := NextState(s, Crctab(0)[tabidx as int]);
      FedThrough(0, data, i);
      r := Feed(r, b[i]);
    }
    assert data[..n] == data;

    var m := n;
    ghost var fed := data;
    while m != 0
      invariant r == FeedAll(0, fed)
      invariant s == Wide(r)
      invariant fed + LengthBytes(m) == data + LengthBytes(n)
    {
      var c := (m % 256) as bv8;
      LengthSplit(fed, m);
      m := m / 256;
      WideStep(Crctab(0), r, c);
      s := NextState(s, Crctab(0)[TableIndex(s, c) as int]);
      FedMore(0, fed, c);
      r, fed := Feed(r, c), fed + [c];
    }
    assert LengthBytes(0) == [] by { NoLengthBytes(); }
    assert fed == data + LengthBytes(n);
    WideComplement(r);
    crc := !s & 0xFFFF_FFFF;
  }

  lemma StartState()
    ensures Wide(0) == 0 && FeedAll(0, []) == 0
  {}

  lemma NoLengthBytes()
    ensures LengthBytes(0) == []
  {}
}
