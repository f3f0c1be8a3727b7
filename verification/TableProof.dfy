// The literal tables hold what division by the generator says they should:
// entry i of table k is the register after byte i and then k zero bytes.
module TableProof {
  import opened Bits
  import opened Word
  import opened Register
  import opened Tables

  function ShiftWord(x: bv32): bv32 {
    if x & 0x8000_0000 != 0 then (x << 1) ^ 0x04C1_1DB7 else x << 1
  }

  // All sums of base with a subset of c3, c2, c1, c0, in binary counting order.
  function Span(base: bv32, c0: bv32, c1: bv32, c2: bv32, c3: bv32): (s: seq<bv32>)
    ensures |s| == 16 && s[0] == base
  {
    var b1, b2, b3 := Xor32(base, c1), Xor32(base, c2), Xor32(base, c3);
    var b21, b31, b32 := Xor32(b2, c1), Xor32(b3, c1), Xor32(b3, c2);
    var b321 := Xor32(b32, c1);
    [base, Xor32(base, c0), b1, Xor32(b1, c0), b2, Xor32(b2, c0), b21, Xor32(b21, c0),
     b3, Xor32(b3, c0), b31, Xor32(b31, c0), b32, Xor32(b32, c0), b321, Xor32(b321, c0)]
  }

  function Block(b: seq<bv32>, c0: bv32, c1: bv32, c2: bv32, c3: bv32): (s: seq<seq<bv32>>)
    requires |b| == 16
    ensures |s| == 16
  {
    [Span(b[0], c0, c1, c2, c3), Span(b[1], c0, c1, c2, c3), Span(b[2], c0, c1, c2, c3), Span(b[3], c0, c1, c2, c3),
     Span(b[4], c0, c1, c2, c3), Span(b[5], c0, c1, c2, c3), Span(b[6], c0, c1, c2, c3), Span(b[7], c0, c1, c2, c3),
     Span(b[8], c0, c1, c2, c3), Span(b[9], c0, c1, c2, c3), Span(b[10], c0, c1, c2, c3), Span(b[11], c0, c1, c2, c3),
     Span(b[12], c0, c1, c2, c3), Span(b[13], c0, c1, c2, c3), Span(b[14], c0, c1, c2, c3), Span(b[15], c0, c1, c2, c3)]
  }

  function Spans(c0: bv32, c1: bv32, c2: bv32, c3: bv32, c4: bv32, c5: bv32, c6: bv32, c7: bv32): (s: seq<seq<bv32>>)
    ensures |s| == 16
  {
    Block(Span(0, c4, c5, c6, c7), c0, c1, c2, c3)
  }

  // The word of x^(31 + m) modulo the generator.
  function Power(m: nat): bv32 {
    if m == 0 then 0x8000_0000 else ShiftWord(Power(m - 1))
  }

  function SpansFrom(m: nat): seq<seq<bv32>> {
    Spans(Power(m), Power(m + 1), Power(m + 2), Power(m + 3), Power(m + 4), Power(m + 5), Power(m + 6), Power(m + 7))
  }

  predicate Powers(p: bv32, c0: bv32, c1: bv32, c2: bv32, c3: bv32, c4: bv32, c5: bv32, c6: bv32, c7: bv32) {
    && c0 == ShiftWord(p) && c1 == ShiftWord(c0) && c2 == ShiftWord(c1) && c3 == ShiftWord(c2)
    && c4 == ShiftWord(c3) && c5 == ShiftWord(c4) && c6 == ShiftWord(c5) && c7 == ShiftWord(c6)
  }

  lemma NextEight(m: nat, p: bv32, c0: bv32, c1: bv32, c2: bv32, c3: bv32, c4: bv32, c5: bv32, c6: bv32, c7: bv32)
    requires Power(m) == p && Powers(p, c0, c1, c2, c3, c4, c5, c6, c7)
    ensures SpansFrom(m + 1) == Spans(c0, c1, c2, c3, c4, c5, c6, c7)
    ensures Power(m + 8) == c7
  {
    hide ShiftWord; hide Spans;
    assert Power(m + 1) == c0 && Power(m + 2) == c1 && Power(m + 3) == c2 && Power(m + 4) == c3;
    assert Power(m + 5) == c4 && Power(m + 6) == c5 && Power(m + 7) == c6 && Power(m + 8) == c7;
  }

  // The literals, table by table; each table starts where the previous one ends.

  lemma Literals0()
    ensures Rows0() == Spans(0x04C1_1DB7, 0x0982_3B6E, 0x1304_76DC, 0x2608_EDB8, 0x4C11_DB70, 0x9823_B6E0,
                             0x3486_7077, 0x690C_E0EE)
  {}

  lemma Literals1()
    ensures Rows1() == Spans(0xD219_C1DC, 0xA0F2_9E0F, 0x4524_21A9, 0x8A48_4352, 0x1051_9B13, 0x20A3_3626,
                             0x4146_6C4C, 0x828C_D898)
  {}

  lemma Literals2()
    ensures Rows2() == Spans(0x01D8_AC87, 0x03B1_590E, 0x0762_B21C, 0x0EC5_6438, 0x1D8A_C870, 0x3B15_90E0,
                             0x762B_21C0, 0xEC56_4380)
  {}

  lemma Literals3()
    ensures Rows3() == Spans(0xDC6D_9AB7, 0xBC1A_28D9, 0x7CF5_4C05, 0xF9EA_980A, 0xF714_2DA3, 0xEAE9_46F1,
                             0xD113_9055, 0xA6E6_3D1D)
  {}

  lemma Literals4()
    ensures Rows4() == Spans(0x490D_678D, 0x921A_CF1A, 0x20F4_8383, 0x41E9_0706, 0x83D2_0E0C, 0x0365_01AF,
                             0x06CA_035E, 0x0D94_06BC)
  {}

  lemma Literals5()
    ensures Rows5() == Spans(0x1B28_0D78, 0x3650_1AF0, 0x6CA0_35E0, 0xD940_6BC0, 0xB641_CA37, 0x6842_89D9,
                             0xD085_13B2, 0xA5CB_3AD3)
  {}

  lemma Literals6()
    ensures Rows6() == Spans(0x4F57_6811, 0x9EAE_D022, 0x399C_BDF3, 0x7339_7BE6, 0xE672_F7CC, 0xC824_F22F,
                             0x9488_F9E9, 0x2DD0_EE65)
  {}

  lemma Literals7()
    ensures Rows7() == Spans(0x5BA1_DCCA, 0xB743_B994, 0x6A46_6E9F, 0xD48C_DD3E, 0xADD8_A7CB, 0x5F70_5221,
                             0xBEE0_A442, 0x7900_5533)
  {}

  lemma Table0()
    ensures Rows0() == SpansFrom(1) && Power(8) == 0x690C_E0EE
  {
    hide Spans; hide SpansFrom; hide Rows0;
    Literals0();
    NextEight(0, 0x8000_0000, 0x04C1_1DB7, 0x0982_3B6E, 0x1304_76DC, 0x2608_EDB8, 0x4C11_DB70, 0x9823_B6E0,
              0x3486_7077, 0x690C_E0EE);
  }

  lemma Table1()
    ensures Rows1() == SpansFrom(9) && Power(16) == 0x828C_D898
  {
    hide Spans; hide SpansFrom; hide Rows1;
    Literals1(); Table0();
    NextEight(8, 0x690C_E0EE, 0xD219_C1DC, 0xA0F2_9E0F, 0x4524_21A9, 0x8A48_4352, 0x1051_9B13, 0x20A3_3626,
              0x4146_6C4C, 0x828C_D898);
  }

  lemma Table2()
    ensures Rows2() == SpansFrom(17) && Power(24) == 0xEC56_4380
  {
    hide Spans; hide SpansFrom; hide Rows2;
    Literals2(); Table1();
    NextEight(16, 0x828C_D898, 0x01D8_AC87, 0x03B1_590E, 0x0762_B21C, 0x0EC5_6438, 0x1D8A_C870, 0x3B15_90E0,
              0x762B_21C0, 0xEC56_4380);
  }

  lemma Table3()
    ensures Rows3() == SpansFrom(25) && Power(32) == 0xA6E6_3D1D
  {
    hide Spans; hide SpansFrom; hide Rows3;
    Literals3(); Table2();
    NextEight(24, 0xEC56_4380, 0xDC6D_9AB7, 0xBC1A_28D9, 0x7CF5_4C05, 0xF9EA_980A, 0xF714_2DA3, 0xEAE9_46F1,
              0xD113_9055, 0xA6E6_3D1D);
  }

  lemma Table4()
    ensures Rows4() == SpansFrom(33) && Power(40) == 0x0D94_06BC
  {
    hide Spans; hide SpansFrom; hide Rows4;
    Literals4(); Table3();
    NextEight(32, 0xA6E6_3D1D, 0x490D_678D, 0x921A_CF1A, 0x20F4_8383, 0x41E9_0706, 0x83D2_0E0C, 0x0365_01AF,
              0x06CA_035E, 0x0D94_06BC);
  }

  lemma Table5()
    ensures Rows5() == SpansFrom(41) && Power(48) == 0xA5CB_3AD3
  {
    hide Spans; hide SpansFrom; hide Rows5;
    Literals5(); Table4();
    NextEight(40, 0x0D94_06BC, 0x1B28_0D78, 0x3650_1AF0, 0x6CA0_35E0, 0xD940_6BC0, 0xB641_CA37, 0x6842_89D9,
              0xD085_13B2, 0xA5CB_3AD3);
  }

  lemma Table6()
    ensures Rows6() == SpansFrom(49) && Power(56) == 0x2DD0_EE65
  {
    hide Spans; hide SpansFrom; hide Rows6;
    Literals6(); Table5();
    NextEight(48, 0xA5CB_3AD3, 0x4F57_6811, 0x9EAE_D022, 0x399C_BDF3, 0x7339_7BE6, 0xE672_F7CC, 0xC824_F22F,
              0x9488_F9E9, 0x2DD0_EE65);
  }

  lemma Table7()
    ensures Rows7() == SpansFrom(57) && Power(64) == 0x7900_5533
  {
    hide Spans; hide SpansFrom; hide Rows7;
    Literals7(); Table6();
    NextEight(56, 0x2DD0_EE65, 0x5BA1_DCCA, 0xB743_B994, 0x6A46_6E9F, 0xD48C_DD3E, 0xADD8_A7CB, 0x5F70_5221,
              0xBEE0_A442, 0x7900_5533);
  }

  // The entry formula: an entry is the sum of the powers its index selects.

  function AddIf(b: bool, r: Reg, v: Reg): Reg {
    if b then Xor(r, v) else r
  }

  ghost predicate Tree(w: seq<Reg>, v0: Reg, v1: Reg, v2: Reg, v3: Reg) {
    && |w| == 16
    && w[1] == Xor(w[0], v0) && w[2] == Xor(w[0], v1) && w[3] == Xor(w[2], v0)
    && w[4] == Xor(w[0], v2) && w[5] == Xor(w[4], v0) && w[6] == Xor(w[4], v1) && w[7] == Xor(w[6], v0)
    && w[8] == Xor(w[0], v3) && w[9] == Xor(w[8], v0) && w[10] == Xor(w[8], v1) && w[11] == Xor(w[10], v0)
    && w[12] == Xor(w[8], v2) && w[13] == Xor(w[12], v0) && w[14] == Xor(w[12], v1) && w[15] == Xor(w[14], v0)
  }

  lemma TreeBlock(w: seq<Reg>, v0: Reg, v1: Reg, v2: Reg, v3: Reg, h: nat)
    requires h < 4 && Tree(w, v0, v1, v2, v3)
    ensures w[4 * h] == AddIf(h % 2 == 1, AddIf(h / 2 == 1, w[0], v3), v2)
  {
    hide Xor; hide Shift1; hide WordBits;
    if h == 0 { assert w[4 * h] == w[0]; }
    else if h == 1 { assert w[4 * h] == w[4]; }
    else if h == 2 { assert w[4 * h] == w[8]; }
    else { assert w[4 * h] == w[12]; }
  }

  lemma TreeQuad(w: seq<Reg>, v0: Reg, v1: Reg, v2: Reg, v3: Reg, h: nat)
    requires h < 4 && Tree(w, v0, v1, v2, v3)
    ensures w[4 * h + 1] == Xor(w[4 * h], v0)
    ensures w[4 * h + 2] == Xor(w[4 * h], v1)
    ensures w[4 * h + 3] == Xor(w[4 * h + 2], v0)
  {
    hide Xor;
    if h == 0 {
    } else if h == 1 {
    } else if h == 2 {
    } else {
      assert h == 3;
    }
  }

  lemma TreeWithin(w: seq<Reg>, v0: Reg, v1: Reg, v2: Reg, v3: Reg, h: nat, j: nat)
    requires h < 4 && j < 4 && Tree(w, v0, v1, v2, v3)
    ensures w[4 * h + j] == AddIf(j % 2 == 1, AddIf(j / 2 == 1, w[4 * h], v1), v0)
  {
    hide Xor; hide Tree;
    TreeSize(w, v0, v1, v2, v3);
    TreeQuad(w, v0, v1, v2, v3, h);
    if j == 0 { assert w[4 * h + j] == w[4 * h]; }
    else if j == 1 { assert w[4 * h + j] == w[4 * h + 1]; }
    else if j == 2 { assert w[4 * h + j] == w[4 * h + 2]; }
    else { assert w[4 * h + j] == w[4 * h + 3]; }
  }

  lemma TreeEntry(w: seq<Reg>, v0: Reg, v1: Reg, v2: Reg, v3: Reg, i: nat)
    requires i < 16 && Tree(w, v0, v1, v2, v3)
    ensures w[i]
         == AddIf(i % 2 == 1, AddIf(i / 2 % 2 == 1, AddIf(i / 4 % 2 == 1, AddIf(i / 8 == 1, w[0], v3), v2), v1), v0)
  {
    hide Xor; hide AddIf; hide Tree;
    TreeSize(w, v0, v1, v2, v3);
    var h, j := i / 4, i % 4;
    TreeBlock(w, v0, v1, v2, v3, h);
    TreeWithin(w, v0, v1, v2, v3, h, j);
    assert i == 4 * h + j && h / 2 == i / 8;
    assert i / 2 == 2 * h + j / 2 && i % 2 == j % 2;
  }

  lemma TreeSize(w: seq<Reg>, v0: Reg, v1: Reg, v2: Reg, v3: Reg)
    requires Tree(w, v0, v1, v2, v3)
    ensures |w| == 16
  {}

  function RowBits(s: seq<bv32>): (w: seq<Reg>)
    ensures |w| == |s|
  {
    seq(|s|, i requires 0 <= i < |s| => WordBits(s[i]))
  }

  lemma SpanTree(base: bv32, c0: bv32, c1: bv32, c2: bv32, c3: bv32)
    ensures Tree(RowBits(Span(base, c0, c1, c2, c3)), WordBits(c0), WordBits(c1), WordBits(c2), WordBits(c3))
  {
    hide Leading; hide Xor; hide Xor32;
    var s := Span(base, c0, c1, c2, c3);
    LeadingXor(s[0], c0, 32); LeadingXor(s[0], c1, 32); LeadingXor(s[2], c0, 32);
    LeadingXor(s[0], c2, 32); LeadingXor(s[4], c0, 32); LeadingXor(s[4], c1, 32); LeadingXor(s[6], c0, 32);
    LeadingXor(s[0], c3, 32); LeadingXor(s[8], c0, 32); LeadingXor(s[8], c1, 32); LeadingXor(s[10], c0, 32);
    LeadingXor(s[8], c2, 32); LeadingXor(s[12], c0, 32); LeadingXor(s[12], c1, 32); LeadingXor(s[14], c0, 32);
  }

  lemma ByteMasks(b: bv8)
    ensures ByteBits(b) == [b & 0x80 != 0, b & 0x40 != 0, b & 0x20 != 0, b & 0x10 != 0,
                            b & 0x08 != 0, b & 0x04 != 0, b & 0x02 != 0, b & 0x01 != 0]
  {
    hide Leading; hide Shl;
    var x := (b as bv32) << 24;
    Leading4(x);
    Leading4(x << 4);
    LeadingConcat(x, 4, 4);
  }

  lemma ByteHalf(b: bv8)
    ensures b as int == 2 * ((b >> 1) as int) + (if b & 0x01 != 0 then 1 else 0)
  {}

  lemma ByteHalfBits(b: bv8)
    ensures ByteBits(b) == ByteBits(b >> 1)[1..] + [b & 0x01 != 0]
  {
    hide ByteBits;
    ByteMasks(b);
    ByteMasks(b >> 1);
  }

  // The k low binary digits of i, most significant first.
  function Digits(i: nat, k: nat): (s: seq<bool>)
    ensures |s| == k
    decreases k
  {
    if k == 0 then [] else Digits(i / 2, k - 1) + [i % 2 == 1]
  }

  lemma {:induction false} ByteDigits(b: bv8, k: nat)
    requires k <= 8
    ensures 0 <= b as int < 256
    ensures Digits(b as int, k) == ByteBits(b)[8 - k..]
    decreases k
  {
    if k == 0 {
      assert Digits(b as int, 0) == ByteBits(b)[8..] == [];
    } else {
      hide ByteBits; hide Digits;
      ByteDigits(b >> 1, k - 1);
      HalfDigits(b, k);
      ByteHalfBits(b);
      TailMore(ByteBits(b), ByteBits(b >> 1), b & 0x01 != 0, k);
    }
  }

  lemma HalfDigits(b: bv8, k: nat)
    requires k > 0
    ensures 0 <= b as int < 256 && 0 <= (b >> 1) as int < 256
    ensures Digits(b as int, k) == Digits((b >> 1) as int, k - 1) + [b & 0x01 != 0]
  {
    hide Digits;
    ByteHalf(b);
    DigitsStep(b as int, k - 1);
  }

  lemma TailMore(s: seq<bool>, half: seq<bool>, x: bool, k: nat)
    requires |s| == |half| == 8 && s == half[1..] + [x] && 0 < k <= 8
    ensures s[8 - k..] == half[8 - (k - 1)..] + [x]
  {}

  lemma DigitsStep(i: nat, k: nat)
    ensures Digits(i, k + 1) == Digits(i / 2, k) + [i % 2 == 1]
  {}

  lemma FourDigits(i: nat, k: nat)
    ensures Digits(i, k + 4) == Digits(i / 16, k) + [i / 8 % 2 == 1, i / 4 % 2 == 1, i / 2 % 2 == 1, i % 2 == 1]
  {
    hide Digits;
    DigitsStep(i, k + 3);
    DigitsStep(i / 2, k + 2);
    DigitsStep(i / 4, k + 1);
    DigitsStep(i / 8, k);
    assert i / 2 / 2 == i / 4 && i / 4 / 2 == i / 8 && i / 8 / 2 == i / 16;
  }

  lemma BlockRow(b: seq<bv32>, c0: bv32, c1: bv32, c2: bv32, c3: bv32, r: nat)
    requires r < 16 && |b| == 16
    ensures Block(b, c0, c1, c2, c3)[r] == Span(b[r], c0, c1, c2, c3)
  {
    hide Span;
    if r == 0 {} else if r == 1 {} else if r == 2 {} else if r == 3 {} else if r == 4 {} else if r == 5 {}
    else if r == 6 {} else if r == 7 {} else if r == 8 {} else if r == 9 {} else if r == 10 {} else if r == 11 {}
    else if r == 12 {} else if r == 13 {} else if r == 14 {} else { assert r == 15; }
  }

  lemma SpansRow(c0: bv32, c1: bv32, c2: bv32, c3: bv32, c4: bv32, c5: bv32, c6: bv32, c7: bv32, r: nat)
    requires r < 16
    ensures Spans(c0, c1, c2, c3, c4, c5, c6, c7)[r] == Span(Span(0, c4, c5, c6, c7)[r], c0, c1, c2, c3)
  {
    hide Span; hide Block;
    BlockRow(Span(0, c4, c5, c6, c7), c0, c1, c2, c3, r);
  }

  // The sum of those v[j] whose bit is set.
  function Mix(bits: seq<bool>, v: seq<Reg>): Reg
    requires |bits| == |v|
    decreases |v|
  {
    if v == [] then ZERO else
      var n := |v| - 1;
      AddIf(bits[n], Mix(bits[..n], v[..n]), v[n])
  }

  lemma MixConcat(bits: seq<bool>, v: seq<Reg>, e: seq<bool>, u: seq<Reg>)
    requires |bits| == |v| && |e| == |u| == 4
    ensures Mix(bits + e, v + u)
         == AddIf(e[3], AddIf(e[2], AddIf(e[1], AddIf(e[0], Mix(bits, v), u[0]), u[1]), u[2]), u[3])
  {
    hide Xor; hide Mix; hide AddIf;
    FourMore(bits, e);
    FourMore(v, u);
    var b1, v1 := bits + [e[0]], v + [u[0]];
    var b2, v2 := b1 + [e[1]], v1 + [u[1]];
    var b3, v3 := b2 + [e[2]], v2 + [u[2]];
    MixStep(bits, v, e[0], u[0]);
    MixStep(b1, v1, e[1], u[1]);
    MixStep(b2, v2, e[2], u[2]);
    MixStep(b3, v3, e[3], u[3]);
  }

  lemma FourMore<T>(s: seq<T>, t: seq<T>)
    requires |t| == 4
    ensures s + t == s + [t[0]] + [t[1]] + [t[2]] + [t[3]]
  {}

  lemma MixStep(bits: seq<bool>, v: seq<Reg>, b: bool, r: Reg)
    requires |bits| == |v|
    ensures Mix(bits + [b], v + [r]) == AddIf(b, Mix(bits, v), r)
  {
    assert (bits + [b])[..|v|] == bits && (v + [r])[..|v|] == v;
  }

  lemma RowEntry(s: seq<bv32>, i: nat)
    requires |s| == 16 && i < 16
    ensures RowBits(s)[0] == WordBits(s[0]) && RowBits(s)[i] == WordBits(s[i])
    ensures i / 8 == 1 <==> i / 8 % 2 == 1
  {
    hide WordBits;
  }

  lemma SpanMix(base: bv32, c0: bv32, c1: bv32, c2: bv32, c3: bv32, i: nat, bits: seq<bool>, v: seq<Reg>)
    requires i < 16 && |bits| == |v|
    requires WordBits(base) == Mix(bits, v)
    ensures WordBits(Span(base, c0, c1, c2, c3)[i])
         == Mix(bits + [i / 8 % 2 == 1, i / 4 % 2 == 1, i / 2 % 2 == 1, i % 2 == 1],
                v + [WordBits(c3), WordBits(c2), WordBits(c1), WordBits(c0)])
  {
    hide Span; hide WordBits; hide Xor; hide Tree; hide Mix; hide AddIf; hide RowBits;
    SpanTree(base, c0, c1, c2, c3);
    RowEntry(Span(base, c0, c1, c2, c3), i);
    TreeEntry(RowBits(Span(base, c0, c1, c2, c3)), WordBits(c0), WordBits(c1), WordBits(c2), WordBits(c3), i);
    MixConcat(bits, v, [i / 8 % 2 == 1, i / 4 % 2 == 1, i / 2 % 2 == 1, i % 2 == 1],
              [WordBits(c3), WordBits(c2), WordBits(c1), WordBits(c0)]);
  }

  lemma SpansMix(rows: seq<seq<bv32>>, i: nat, v: seq<Reg>,
                 c0: bv32, c1: bv32, c2: bv32, c3: bv32, c4: bv32, c5: bv32, c6: bv32, c7: bv32)
    requires i < 256 && Square(rows)
    requires forall r | 0 <= r < 16 :: rows[r] == Span(Span(0, c4, c5, c6, c7)[r], c0, c1, c2, c3)
    requires v == [WordBits(c7), WordBits(c6), WordBits(c5), WordBits(c4), WordBits(c3), WordBits(c2), WordBits(c1),
                   WordBits(c0)]
    ensures WordBits(rows[i / 16][i % 16]) == Mix(Digits(i, |v|), v)
  {
    hide Span; hide WordBits; hide Mix; hide Digits;
    var r, c := i / 16, i % 16;
    MixEmpty();
    SpanMix(0, c4, c5, c6, c7, r, [], []);
    EightDigits(i);
    var hi, u := Digits(r, 4), [WordBits(c7), WordBits(c6), WordBits(c5), WordBits(c4)];
    assert u == [] + u;
    var base := Span(0, c4, c5, c6, c7)[r];
    SpanMix(base, c0, c1, c2, c3, c, hi, u);
    assert u + [WordBits(c3), WordBits(c2), WordBits(c1), WordBits(c0)] == v;
  }

  lemma EightDigits(i: nat)
    requires i < 256
    ensures var r, c := i / 16, i % 16;
            && Digits(r, 4) == [] + [r / 8 % 2 == 1, r / 4 % 2 == 1, r / 2 % 2 == 1, r % 2 == 1]
            && Digits(i, 8) == Digits(r, 4) + [c / 8 % 2 == 1, c / 4 % 2 == 1, c / 2 % 2 == 1, c % 2 == 1]
  {
    hide Digits;
    FourDigits(i, 4);
    FourDigits(i / 16, 0);
    DigitsEmpty(i / 256);
    SameLowDigits(i);
  }

  lemma MixEmpty()
    ensures Mix([], []) == Zeros(32) == WordBits(0)
  {
    LeadingZero(32);
  }

  lemma DigitsEmpty(i: nat)
    ensures Digits(i, 0) == []
  {}

  lemma SameLowDigits(i: nat)
    ensures i % 16 / 8 % 2 == i / 8 % 2 && i % 16 / 4 % 2 == i / 4 % 2 && i % 16 / 2 % 2 == i / 2 % 2
        && i % 16 % 2 == i % 2
  {
    var q, c := i / 16, i % 16;
    assert i / 8 == 2 * q + c / 8 && i / 4 == 4 * q + c / 4 && i / 2 == 8 * q + c / 2;
    EvenPart(q, c / 8);
    EvenPart(2 * q, c / 4);
    EvenPart(4 * q, c / 2);
    EvenPart(8 * q, c);
  }

  lemma EvenPart(x: nat, y: nat)
    ensures (2 * x + y) % 2 == y % 2
  {}

  // From words to registers: a power word advanced is the next power.

  function Unit(j: nat): Reg
    requires j < 32
  {
    Zeros(32)[j := true]
  }

  lemma ShiftWordParts(x: bv32)
    ensures ShiftWord(x) == if Top(x) then Xor32(Twice(x), 0x04C1_1DB7) else Twice(x)
  {}

  lemma ShiftWordBits(x: bv32)
    ensures WordBits(ShiftWord(x)) == Shift1(WordBits(x))
  {
    hide ShiftWord; hide Twice; hide Top; hide Xor32; hide Leading;
    ShiftWordParts(x);
    WordTwice(x);
    LeadingStep(x, 31);
    LeadingXor(Twice(x), 0x04C1_1DB7, 32);
  }

  lemma TopUnit()
    ensures WordBits(0x8000_0000) == Unit(0)
  {
    hide Leading;
    LeadingStep(0x8000_0000, 31);
    LeadingZero(31);
    assert Twice(0x8000_0000) == 0 && Top(0x8000_0000);
  }

  lemma {:induction false} PowerBits(m: nat)
    ensures WordBits(Power(m)) == Advance(Unit(0), m)
  {
    hide WordBits; hide ShiftWord;
    if m == 0 {
      TopUnit();
    } else {
      PowerBits(m - 1);
      ShiftWordBits(Power(m - 1));
    }
  }

  lemma UnitPower(j: nat, n: nat)
    requires j < 32 && j <= n
    ensures Advance(Unit(j), n) == WordBits(Power(n - j))
  {
    hide WordBits; hide Power;
    AdvanceAdd(Unit(j), j, n - j);
    AdvanceFree(Unit(j), j);
    assert Advance(Unit(j), j) == Unit(0);
    PowerBits(n - j);
  }

  lemma {:induction false} MixIsAdvance(bits: seq<bool>, v: seq<Reg>, n: nat)
    requires |bits| == |v| <= 32
    requires forall j | 0 <= j < |v| :: v[j] == Advance(Unit(j), n)
    ensures Mix(bits, v) == Advance(Padded(bits), n)
    decreases |v|
  {
    if v == [] {
      assert Padded(bits) == ZERO;
      AdvanceZero(n);
    } else {
      var m := |v| - 1;
      MixIsAdvance(bits[..m], v[..m], n);
      if bits[m] {
        assert Padded(bits) == Xor(Padded(bits[..m]), Unit(m));
        AdvanceLinear(Padded(bits[..m]), Unit(m), n);
      } else {
        assert Padded(bits) == Padded(bits[..m]);
      }
    }
  }

  // t is table k: entry b is the register after byte b and then k zero bytes.
  ghost predicate IsTable(t: seq<bv32>, k: nat) {
    |t| == 256 && forall b: bv8 :: IsEntry(t, k, b)
  }

  ghost predicate IsEntry(t: seq<bv32>, k: nat, b: bv8) {
    0 <= b as int < |t| && WordBits(t[b as int]) == Advance(Padded(ByteBits(b)), 8 * (k + 1))
  }

  lemma PowersAreUnits(k: nat, v: seq<Reg>)
    requires |v| == 8 && forall j | 0 <= j < 8 :: v[j] == WordBits(Power(8 * k + 8 - j))
    ensures forall j | 0 <= j < 8 :: v[j] == Advance(Unit(j), 8 * (k + 1))
  {
    hide WordBits; hide Power; hide Advance;
    forall j | 0 <= j < 8 ensures v[j] == Advance(Unit(j), 8 * (k + 1)) {
      UnitPower(j, 8 * (k + 1));
    }
  }

  lemma SpansMakeEntry(rows: seq<seq<bv32>>, k: nat, b: bv8)
    requires Square(rows) && rows == SpansFrom(8 * k + 1)
    ensures IsEntry(Flatten(rows), k, b)
  {
    hide Spans; hide WordBits; hide Power; hide Digits; hide Mix; hide ByteBits; hide Advance; hide Square;
    ByteDigits(b, 8);
    var v := PowerRow(k);
    SpansFromMix(rows, k, b as int, v);
    PowersAreUnits(k, v);
    MixIsAdvance(ByteBits(b), v, 8 * (k + 1));
  }

  function PowerRow(k: nat): seq<Reg> {
    seq(8, j requires 0 <= j < 8 => WordBits(Power(8 * k + 8 - j)))
  }

  lemma SpansFromMix(rows: seq<seq<bv32>>, k: nat, i: nat, v: seq<Reg>)
    requires i < 256 && v == PowerRow(k)
    requires Square(rows) && rows == SpansFrom(8 * k + 1)
    ensures WordBits(rows[i / 16][i % 16]) == Mix(Digits(i, |v|), v)
  {
    hide Span; hide Spans; hide WordBits; hide Power; hide Digits; hide Mix;
    var m := 8 * k + 1;
    forall r | 0 <= r < 16
      ensures rows[r] == Span(Span(0, Power(m + 4), Power(m + 5), Power(m + 6), Power(m + 7))[r],
                              Power(m), Power(m + 1), Power(m + 2), Power(m + 3))
    {
      SpansRow(Power(m), Power(m + 1), Power(m + 2), Power(m + 3), Power(m + 4), Power(m + 5), Power(m + 6),
               Power(m + 7), r);
    }
    assert v == [WordBits(Power(m + 7)), WordBits(Power(m + 6)), WordBits(Power(m + 5)), WordBits(Power(m + 4)),
                 WordBits(Power(m + 3)), WordBits(Power(m + 2)), WordBits(Power(m + 1)), WordBits(Power(m))];
    SpansMix(rows, i, v, Power(m), Power(m + 1), Power(m + 2), Power(m + 3), Power(m + 4), Power(m + 5),
             Power(m + 6), Power(m + 7));
  }

  lemma SpansMakeTable(rows: seq<seq<bv32>>, k: nat)
    requires Square(rows) && rows == SpansFrom(8 * k + 1)
    ensures IsTable(Flatten(rows), k)
  {
    hide SpansFrom; hide IsEntry;
    forall b: bv8 ensures IsEntry(Flatten(rows), k, b) {
      SpansMakeEntry(rows, k, b);
    }
  }

  // The literal tables are the tables they should be.
  lemma CrctabIsTable(k: nat)
    requires k < 8
    ensures IsTable(Crctab(k), k)
  {
    hide SpansFrom; hide Power; hide IsTable; hide Flatten; hide Square;
    hide Rows0; hide Rows1; hide Rows2; hide Rows3; hide Rows4; hide Rows5; hide Rows6; hide Rows7;
    if k == 0 { Table0(); SpansMakeTable(Rows0(), 0); }
    else if k == 1 { Table1(); SpansMakeTable(Rows1(), 1); }
    else if k == 2 { Table2(); SpansMakeTable(Rows2(), 2); }
    else if k == 3 { Table3(); SpansMakeTable(Rows3(), 3); }
    else if k == 4 { Table4(); SpansMakeTable(Rows4(), 4); }
    else if k == 5 { Table5(); SpansMakeTable(Rows5(), 5); }
    else if k == 6 { Table6(); SpansMakeTable(Rows6(), 6); }
    else { Table7(); SpansMakeTable(Rows7(), 7); }
  }
}
