// The checksum is the complement of the remainder of the message times x^32 on
// division by the generator 0x104C11DB7.
module Remainder {
  import opened Bits
  import opened Word
  import opened Register
  import opened Checksum
  import Gf2
  import CrcTheorems

  // First bit, highest power.
  function PolyOf(bits: seq<bool>): Gf2.Poly {
    set i | 0 <= i < |bits| && bits[i] :: |bits| - 1 - i
  }

  lemma PolyHas(bits: seq<bool>, e: nat)
    ensures e in PolyOf(bits) <==> e < |bits| && bits[|bits| - 1 - e]
  {
    if e < |bits| && bits[|bits| - 1 - e] {
      assert e == |bits| - 1 - (|bits| - 1 - e);
    }
  }

  const G: Gf2.Poly := {32, 26, 23, 22, 16, 12, 11, 10, 8, 7, 5, 4, 2, 1, 0}

  lemma GeneratorPoly(e: nat)
    ensures e in G <==> e == 32 || e in PolyOf(GENERATOR)
  {
    hide WordBits;
    GeneratorBits();
    PolyHas(GENERATOR, e);
  }

  lemma GeneratorDegree()
    ensures Gf2.HasDegree(G, 32)
  {}

  // x * r + b * x^32
  function Pushed(r: Reg, b: bool): Gf2.Poly {
    Gf2.Plus(Gf2.TimesPower(PolyOf(r), 1), if b then {32} else {})
  }

  lemma PushedHas(r: Reg, b: bool, e: nat)
    ensures e in Pushed(r, b) <==> if e == 32 then r[0] != b else 1 <= e < 32 && r[32 - e]
  {
    hide PolyOf; hide Gf2.TimesPower;
    Gf2.ShiftedHas(PolyOf(r), e, 1);
    if e >= 1 { PolyHas(r, e - 1); }
  }

  // A register step pushes the bit in and reduces by the generator if x^32 appears.
  lemma StepPoly(r: Reg, b: bool)
    ensures PolyOf(Step(r, b)) == if r[0] != b then Gf2.Plus(Pushed(r, b), G) else Pushed(r, b)
  {
    hide PolyOf; hide Pushed; hide WordBits;
    forall e: nat
      ensures e in PolyOf(Step(r, b)) <==> e in (if r[0] != b then Gf2.Plus(Pushed(r, b), G) else Pushed(r, b))
    {
      PolyHas(Step(r, b), e);
      PushedHas(r, b, e);
      GeneratorPoly(e);
      PolyHas(GENERATOR, e);
    }
  }

  lemma MessagePush(bits: seq<bool>, b: bool)
    ensures Gf2.TimesPower(PolyOf(bits + [b]), 32)
         == Gf2.Plus(Gf2.TimesPower(Gf2.TimesPower(PolyOf(bits), 32), 1), if b then {32} else {})
  {
    hide PolyOf; hide Gf2.TimesPower;
    var p := PolyOf(bits + [b]);
    forall e: nat
      ensures e in Gf2.TimesPower(p, 32)
         <==> e in Gf2.Plus(Gf2.TimesPower(Gf2.TimesPower(PolyOf(bits), 32), 1), if b then {32} else {})
    {
      Gf2.ShiftedHas(p, e, 32);
      Gf2.ShiftedHas(Gf2.TimesPower(PolyOf(bits), 32), e, 1);
      if e >= 1 { Gf2.ShiftedHas(PolyOf(bits), e - 1, 32); }
      if e >= 32 { PolyHas(bits + [b], e - 32); }
      if e >= 33 { PolyHas(bits, e - 33); }
    }
  }

  // With d = q g + r: x d + c = (x q) g + (x r + c), and adding g once more to
  // both the quotient and the remainder part changes nothing.
  lemma QuotientStep(d: Gf2.Poly, q: Gf2.Poly, r: Gf2.Poly, c: Gf2.Poly)
    requires d == Gf2.Plus(Gf2.Times(q, G), r)
    ensures var x := Gf2.TimesPower(d, 1);
            var w := Gf2.Plus(Gf2.TimesPower(r, 1), c);
            var q' := Gf2.TimesPower(q, 1);
            && Gf2.Plus(x, c) == Gf2.Plus(Gf2.Times(q', G), w)
            && Gf2.Plus(x, c) == Gf2.Plus(Gf2.Times(Gf2.Plus(q', {0}), G), Gf2.Plus(w, G))
  {
    hide Gf2.Times; hide Gf2.TimesPower;
    Gf2.TimesX(q, G);
    Gf2.TimesPlus(Gf2.TimesPower(q, 1), {0}, G);
    Gf2.TimesOne(G);
    ShiftPlus(Gf2.Times(q, G), r);
  }

  lemma ShiftPlus(a: Gf2.Poly, b: Gf2.Poly)
    ensures Gf2.TimesPower(Gf2.Plus(a, b), 1) == Gf2.Plus(Gf2.TimesPower(a, 1), Gf2.TimesPower(b, 1))
  {
    hide Gf2.TimesPower;
    forall e: nat
      ensures e in Gf2.TimesPower(Gf2.Plus(a, b), 1) <==> e in Gf2.Plus(Gf2.TimesPower(a, 1), Gf2.TimesPower(b, 1))
    {
      Gf2.ShiftedHas(Gf2.Plus(a, b), e, 1);
      Gf2.ShiftedHas(a, e, 1);
      Gf2.ShiftedHas(b, e, 1);
    }
  }

  lemma RegisterBelow(r: Reg)
    ensures Gf2.Below(PolyOf(r), 32)
  {}

  // After any bit string the register holds the remainder.
  lemma {:induction false} RegisterIsRemainder(bits: seq<bool>)
    ensures Gf2.IsRemainder(PolyOf(Consume(ZERO, bits)), Gf2.TimesPower(PolyOf(bits), 32), G, 32)
    decreases |bits|
  {
    hide PolyOf; hide Gf2.Times; hide Gf2.TimesPower; hide Gf2.Plus; hide Step; hide Pushed; hide Gf2.Below;
    RegisterBelow(Consume(ZERO, bits));
    if bits == [] {
      EmptyMessage();
    } else {
      var n := |bits| - 1;
      var init, b := bits[..n], bits[n];
      assert bits == init + [b];
      RegisterIsRemainder(init);
      var r := Consume(ZERO, init);
      var d := Gf2.TimesPower(PolyOf(init), 32);
      var q: Gf2.Poly :| d == Gf2.Plus(Gf2.Times(q, G), PolyOf(r));
      MessagePush(init, b);
      QuotientStep(d, q, PolyOf(r), if b then {32} else {});
      StepPoly(r, b);
      PushedDef(r, b);
    }
  }

  lemma PushedDef(r: Reg, b: bool)
    ensures Pushed(r, b) == Gf2.Plus(Gf2.TimesPower(PolyOf(r), 1), if b then {32} else {})
  {}

  lemma EmptyMessage()
    ensures Gf2.TimesPower(PolyOf([]), 32) == Gf2.Plus(Gf2.Times({}, G), PolyOf(ZERO))
  {
    Gf2.TimesNothing(G);
  }

  lemma PolyInjective(a: Reg, b: Reg)
    requires PolyOf(a) == PolyOf(b)
    ensures a == b
  {
    hide PolyOf;
    forall i | 0 <= i < 32 ensures a[i] == b[i] {
      PolyHas(a, 31 - i);
      PolyHas(b, 31 - i);
    }
  }

  // c is the checksum of the data exactly when its complement is the remainder
  // of (data, then length) times x^32.
  lemma CrcIsRemainder(data: seq<bv8>, c: bv32)
    ensures c == Crc(data)
       <==> Gf2.IsRemainder(PolyOf(Complement(WordBits(c))), Gf2.TimesPower(PolyOf(Message(data)), 32), G, 32)
  {
    hide WordBits; hide Consume; hide Crc; hide PolyOf; hide Gf2.IsRemainder; hide Gf2.TimesPower; hide Message;
    var r := Consume(ZERO, Message(data));
    RegisterIsRemainder(Message(data));
    CrcBits(data);
    assert Complement(WordBits(Crc(data))) == r;
    if Gf2.IsRemainder(PolyOf(Complement(WordBits(c))), Gf2.TimesPower(PolyOf(Message(data)), 32), G, 32) {
      GeneratorDegree();
      Gf2.RemainderUnique(PolyOf(Complement(WordBits(c))), PolyOf(r), Gf2.TimesPower(PolyOf(Message(data)), 32), G, 32);
      PolyInjective(Complement(WordBits(c)), r);
      CrcTheorems.ComplementInjective(WordBits(c), WordBits(Crc(data)));
      WordBitsInjective(c, Crc(data));
    }
  }

  // Damage that keeps the length goes unnoticed exactly when the generator
  // divides (the bits that differ) times x^32.
  lemma UndetectedDamage(a: seq<bv8>, b: seq<bv8>)
    requires |a| == |b|
    ensures Crc(a) == Crc(b)
       <==> Gf2.IsRemainder({}, Gf2.TimesPower(PolyOf(BitsOf(CrcTheorems.XorBytes(a, b))), 32), G, 32)
  {
    hide Consume; hide Crc; hide PolyOf; hide Gf2.IsRemainder; hide Gf2.TimesPower; hide BitsOf;
    hide CrcTheorems.XorBytes;
    var d := BitsOf(CrcTheorems.XorBytes(a, b));
    CrcTheorems.SameCrcSameRegister(a, b);
    CrcTheorems.BitsOfXor(a, b);
    XorZeros(ZERO);
    ConsumeLinear(ZERO, ZERO, BitsOf(a), BitsOf(b));
    SameXorZero(Consume(ZERO, BitsOf(a)), Consume(ZERO, BitsOf(b)));
    RegisterIsRemainder(d);
    ZeroPoly(Consume(ZERO, d));
    if Gf2.IsRemainder({}, Gf2.TimesPower(PolyOf(d), 32), G, 32) {
      GeneratorDegree();
      Gf2.RemainderUnique({}, PolyOf(Consume(ZERO, d)), Gf2.TimesPower(PolyOf(d), 32), G, 32);
    }
  }

  lemma SameXorZero(r: Reg, s: Reg)
    ensures Xor(r, s) == ZERO <==> r == s
  {
    if Xor(r, s) == ZERO {
      forall i | 0 <= i < 32 ensures r[i] == s[i] {
        assert Xor(r, s)[i] == ZERO[i];
      }
    }
  }

  lemma ZeroPoly(r: Reg)
    ensures PolyOf(r) == {} <==> r == ZERO
  {
    if PolyOf(r) == {} {
      assert PolyOf(ZERO) == {};
      PolyInjective(r, ZERO);
    }
  }
}
