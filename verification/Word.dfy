// Machine words seen as bit strings. This is the only place that reasons
// about bit-vector operators; everything above works with WordBits and ByteBits.
module Word {
  import opened Bits

  predicate Top(x: bv32) { x & 0x8000_0000 != 0 }

  function Twice(x: bv32): bv32 { x << 1 }

  function Xor32(x: bv32, y: bv32): bv32 { x ^ y }

  // The n leading bits of x.
  function Leading(x: bv32, n: nat): (s: seq<bool>)
    ensures |s| == n
    decreases n
  {
    if n == 0 then [] else [Top(x)] + Leading(Twice(x), n - 1)
  }

  function Shl(x: bv32, n: nat): bv32
    decreases n
  {
    if n == 0 then x else Shl(Twice(x), n - 1)
  }

  function WordBits(x: bv32): (s: seq<bool>)
    ensures |s| == 32
  {
    Leading(x, 32)
  }

  function ByteBits(b: bv8): (s: seq<bool>)
    ensures |s| == 8
  {
    Leading((b as bv32) << 24, 8)
  }

  lemma TopXor(x: bv32, y: bv32)
    ensures Top(Xor32(x, y)) == (Top(x) != Top(y))
  {}

  lemma TwiceXor(x: bv32, y: bv32)
    ensures Twice(Xor32(x, y)) == Xor32(Twice(x), Twice(y))
  {}

  lemma {:induction false} LeadingXor(x: bv32, y: bv32, n: nat)
    ensures Leading(Xor32(x, y), n) == Xor(Leading(x, n), Leading(y, n))
    decreases n
  {
    hide Top; hide Twice; hide Xor32; hide Xor;
    if n == 0 {
    } else {
      TopXor(x, y);
      TwiceXor(x, y);
      LeadingXor(Twice(x), Twice(y), n - 1);
      XorCons(Top(x), Leading(Twice(x), n - 1), Top(y), Leading(Twice(y), n - 1));
    }
  }

  lemma XorCons(a: bool, s: seq<bool>, b: bool, t: seq<bool>)
    requires |s| == |t|
    ensures Xor([a] + s, [b] + t) == [a != b] + Xor(s, t)
  {}

  lemma WordXor(x: bv32, y: bv32)
    ensures WordBits(x ^ y) == Xor(WordBits(x), WordBits(y))
  {
    hide Leading;
    LeadingXor(x, y, 32);
  }

  lemma LeadingStep(x: bv32, n: nat)
    ensures Leading(x, n + 1) == [Top(x)] + Leading(Twice(x), n)
  {}

  lemma {:induction false} LeadingConcat(x: bv32, m: nat, n: nat)
    ensures Leading(x, m + n) == Leading(x, m) + Leading(Shl(x, m), n)
    decreases m
  {
    hide Top; hide Twice;
    if m > 0 {
      LeadingConcat(Twice(x), m - 1, n);
    } else {
      assert Leading(x, m) + Leading(Shl(x, m), n) == Leading(x, n);
    }
  }

  lemma {:induction false} LeadingZero(n: nat)
    ensures Leading(0, n) == Zeros(n)
  {
    if n == 0 {
    } else {
      LeadingZero(n - 1);
      assert Twice(0) == 0;
    }
  }

  lemma {:induction false} ShlConcat(x: bv32, m: nat, n: nat)
    ensures Shl(x, m + n) == Shl(Shl(x, m), n)
    decreases m
  {
    hide Twice;
    if m == 0 {
    } else {
      ShlConcat(Twice(x), m - 1, n);
    }
  }

  lemma TopMask1(x: bv32)
    ensures Top(Twice(x)) == (x & 0x4000_0000 != 0)
  {}

  lemma TopMask2(x: bv32)
    ensures Top(Twice(Twice(x))) == (x & 0x2000_0000 != 0)
  {}

  lemma TopMask3(x: bv32)
    ensures Top(Twice(Twice(Twice(x)))) == (x & 0x1000_0000 != 0)
  {}

  lemma FourTwice(x: bv32)
    ensures Twice(Twice(Twice(Twice(x)))) == x << 4
  {}

  lemma TopMask(x: bv32)
    ensures Top(x) == (x & 0x8000_0000 != 0)
  {}

  // The first hexadecimal digit of a word, bit by bit.
  lemma Leading4(x: bv32)
    ensures Leading(x, 4) == [x & 0x8000_0000 != 0, x & 0x4000_0000 != 0, x & 0x2000_0000 != 0, x & 0x1000_0000 != 0]
    ensures Shl(x, 4) == x << 4
  {
    hide Twice; hide Top;
    assert Leading(x, 4) == [Top(x)] + Leading(Twice(x), 3);
    assert Leading(Twice(x), 3) == [Top(Twice(x))] + Leading(Twice(Twice(x)), 2);
    assert Leading(Twice(Twice(x)), 2) == [Top(Twice(Twice(x))), Top(Twice(Twice(Twice(x))))];
    TopMask(x);
    TopMask1(x);
    TopMask2(x);
    TopMask3(x);
    FourTwice(x);
  }

  function Up8(x: bv32): bv32 { x << 8 }

  lemma TwoDigitsUp(x: bv32)
    ensures (x << 4) << 4 == Up8(x)
  {}

  lemma FourUp8(x: bv32)
    ensures Up8(Up8(Up8(Up8(x)))) == 0
  {}

  lemma Shl8(x: bv32)
    ensures Shl(x, 8) == Up8(x) == x << 8
  {
    hide Leading; hide Shl;
    Leading4(x);
    Leading4(x << 4);
    ShlConcat(x, 4, 4);
    TwoDigitsUp(x);
  }

  lemma Shl32(x: bv32)
    ensures Shl(x, 32) == 0
  {
    hide Leading; hide Shl; hide Up8;
    Shl8(x);
    Shl8(Up8(x));
    Shl8(Up8(Up8(x)));
    Shl8(Up8(Up8(Up8(x))));
    ShlConcat(x, 8, 8);
    ShlConcat(x, 16, 8);
    ShlConcat(x, 24, 8);
    FourUp8(x);
  }

  lemma WordTwice(x: bv32)
    ensures WordBits(Twice(x)) == WordBits(x)[1..] + [false]
  {
    hide Top; hide Twice; hide Shl; hide Leading;
    LeadingConcat(x, 32, 1);
    Shl32(x);
    LeadingZero(1);
    LeadingStep(x, 32);
    assert WordBits(x) + [false] == [Top(x)] + WordBits(Twice(x));
    assert (WordBits(x) + [false])[1..] == WordBits(x)[1..] + [false];
  }

  lemma WordShift8(x: bv32)
    ensures WordBits(x << 8) == WordBits(x)[8..] + Zeros(8)
  {
    hide Leading; hide Shl;
    Shl8(x);
    LeadingConcat(x, 8, 32);
    LeadingConcat(x, 32, 8);
    Shl32(x);
    LeadingZero(8);
    assert WordBits(x << 8) == Leading(x, 40)[8..];
    assert Leading(x, 40) == WordBits(x) + Zeros(8);
  }

  // A word is determined by its bits.

  lemma TwiceZero(x: bv32)
    requires !Top(x) && Twice(x) == 0
    ensures x == 0
  {}

  lemma {:induction false} AllBitsZero(x: bv32, n: nat)
    requires Shl(x, n) == 0 && Leading(x, n) == Zeros(n)
    ensures x == 0
    decreases n
  {
    hide Top; hide Twice;
    if n == 0 {
    } else {
      assert Leading(x, n)[0] == Top(x);
      assert Leading(Twice(x), n - 1) == Leading(x, n)[1..] == Zeros(n - 1);
      AllBitsZero(Twice(x), n - 1);
      TwiceZero(x);
    }
  }

  lemma Xor32Zero(x: bv32, y: bv32)
    requires Xor32(x, y) == 0
    ensures x == y
  {}

  lemma WordBitsInjective(x: bv32, y: bv32)
    requires WordBits(x) == WordBits(y)
    ensures x == y
  {
    hide Leading; hide Shl; hide Xor32;
    LeadingXor(x, y, 32);
    assert Leading(Xor32(x, y), 32) == Zeros(32);
    Shl32(Xor32(x, y));
    AllBitsZero(Xor32(x, y), 32);
    Xor32Zero(x, y);
  }

  // The bits of a word, one hexadecimal digit at a time.
  lemma WordDigits(x: bv32)
    ensures WordBits(x) == Leading(x, 4) + Leading(Shl(x, 4), 4) + Leading(Shl(x, 8), 4) + Leading(Shl(x, 12), 4)
                         + Leading(Shl(x, 16), 4) + Leading(Shl(x, 20), 4) + Leading(Shl(x, 24), 4)
                         + Leading(Shl(x, 28), 4)
  {
    hide Leading; hide Shl;
    LeadingConcat(x, 4, 4); LeadingConcat(x, 8, 4); LeadingConcat(x, 12, 4); LeadingConcat(x, 16, 4);
    LeadingConcat(x, 20, 4); LeadingConcat(x, 24, 4); LeadingConcat(x, 28, 4);
  }

  lemma NextDigit(x: bv32, k: nat, y: bv32)
    requires Shl(x, k) == y
    ensures Shl(x, k + 4) == y << 4
  {
    hide Leading; hide Shl;
    ShlConcat(x, k, 4);
    Leading4(y);
  }

  lemma GeneratorBits()
    ensures WordBits(0x04C1_1DB7) ==
            [false, false, false, false,  false, true, false, false]
          + [true, true, false, false,  false, false, false, true]
          + [false, false, false, true,  true, true, false, true,  true, false, true, true,  false, true, true, true]
  {
    hide Leading; hide Shl;
    var g := 0x04C1_1DB7;
    WordDigits(g);
    Leading4(g);
    NextDigit(g, 4, 0x4C11_DB70); NextDigit(g, 8, 0xC11D_B700); NextDigit(g, 12, 0x11DB_7000);
    NextDigit(g, 16, 0x1DB7_0000); NextDigit(g, 20, 0xDB70_0000); NextDigit(g, 24, 0xB700_0000);
    Leading4(0x4C11_DB70); Leading4(0xC11D_B700); Leading4(0x11DB_7000);
    Leading4(0x1DB7_0000); Leading4(0xDB70_0000); Leading4(0xB700_0000); Leading4(0x7000_0000);
  }

  lemma GeneratorConstantTerm()
    ensures WordBits(0x04C1_1DB7)[31]
  {
    hide Leading;
    GeneratorBits();
  }

  lemma OnesBits()
    ensures WordBits(0xFFFF_FFFF) == Complement(Zeros(32))
  {
    hide Leading; hide Shl;
    var x := 0xFFFF_FFFF;
    WordDigits(x);
    Leading4(x);
    NextDigit(x, 4, 0xFFFF_FFF0); NextDigit(x, 8, 0xFFFF_FF00); NextDigit(x, 12, 0xFFFF_F000);
    NextDigit(x, 16, 0xFFFF_0000); NextDigit(x, 20, 0xFFF0_0000); NextDigit(x, 24, 0xFF00_0000);
    Leading4(0xFFFF_FFF0); Leading4(0xFFFF_FF00); Leading4(0xFFFF_F000);
    Leading4(0xFFFF_0000); Leading4(0xFFF0_0000); Leading4(0xFF00_0000); Leading4(0xF000_0000);
  }

  lemma WordNot(x: bv32)
    ensures WordBits(!x) == Complement(WordBits(x))
  {
    hide Leading;
    assert !x == x ^ 0xFFFF_FFFF;
    WordXor(x, 0xFFFF_FFFF);
    OnesBits();
  }
}
