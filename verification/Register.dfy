// The bit-serial reference: a 32-bit division register, written as 32
// coefficients with the highest power first, that is fed one bit at a time.
module Register {
  import opened Bits
  import opened Word

  type Reg = r: seq<bool> | |r| == 32 witness Zeros(32)

  // The low 32 coefficients of the generator 0x104C11DB7.
  const GENERATOR: Reg := WordBits(0x04C1_1DB7)

  const ZERO: Reg := Zeros(32)

  // Multiply by x and reduce: the coefficient that reaches x^32 is replaced
  // by the low part of the generator.
  function Shift1(r: Reg): Reg {
    if r[0] then Xor(r[1..] + [false], GENERATOR) else r[1..] + [false]
  }

  // Multiply by x^n and reduce.
  function Advance(r: Reg, n: nat): Reg
    decreases n
  {
    if n == 0 then r else Shift1(Advance(r, n - 1))
  }

  // Take in one message bit.
  function Step(r: Reg, b: bool): Reg {
    Shift1(r[0 := r[0] != b])
  }

  // Take in a bit string, first bit first.
  function Consume(r: Reg, bits: seq<bool>): Reg
    decreases |bits|
  {
    if bits == [] then r else Step(Consume(r, bits[..|bits| - 1]), bits[|bits| - 1])
  }

  lemma {:induction false} ConsumeConcat(r: Reg, a: seq<bool>, b: seq<bool>)
    ensures Consume(r, a + b) == Consume(Consume(r, a), b)
    decreases |b|
  {
    if b == [] {
      assert a + b == a;
    } else {
      var n := |b| - 1;
      assert (a + b)[..|a + b| - 1] == a + b[..n];
      ConsumeConcat(r, a, b[..n]);
    }
  }

  lemma {:induction false} AdvanceAdd(r: Reg, m: nat, n: nat)
    ensures Advance(r, m + n) == Advance(Advance(r, m), n)
    decreases n
  {
    if n == 0 {
    } else {
      AdvanceAdd(r, m, n - 1);
    }
  }

  // Linearity over GF(2).

  lemma Shift1Linear(a: Reg, b: Reg)
    ensures Shift1(Xor(a, b)) == Xor(Shift1(a), Shift1(b))
  {}

  lemma {:induction false} AdvanceLinear(a: Reg, b: Reg, n: nat)
    ensures Advance(Xor(a, b), n) == Xor(Advance(a, n), Advance(b, n))
    decreases n
  {
    if n == 0 {
    } else {
      AdvanceLinear(a, b, n - 1);
      Shift1Linear(Advance(a, n - 1), Advance(b, n - 1));
    }
  }

  lemma {:induction false} ConsumeLinear(r: Reg, s: Reg, a: seq<bool>, b: seq<bool>)
    requires |a| == |b|
    ensures Consume(Xor(r, s), Xor(a, b)) == Xor(Consume(r, a), Consume(s, b))
    decreases |a|
  {
    if a == [] {
      assert Xor(a, b) == [];
    } else {
      var n := |a| - 1;
      assert Xor(a, b)[..n] == Xor(a[..n], b[..n]);
      ConsumeLinear(r, s, a[..n], b[..n]);
      var p, q := Consume(r, a[..n]), Consume(s, b[..n]);
      StepLinear(p, q, a[n], b[n]);
    }
  }

  lemma StepLinear(p: Reg, q: Reg, x: bool, y: bool)
    ensures Step(Xor(p, q), x != y) == Xor(Step(p, x), Step(q, y))
  {
    hide Shift1;
    assert Xor(p, q)[0 := Xor(p, q)[0] != (x != y)] == Xor(p[0 := p[0] != x], q[0 := q[0] != y]);
    Shift1Linear(p[0 := p[0] != x], q[0 := q[0] != y]);
  }

  // Invertibility: the generator's constant term is 1.

  lemma Shift1Injective(a: Reg, b: Reg)
    requires Shift1(a) == Shift1(b)
    ensures a == b
  {
    GeneratorConstantTerm();
    assert Shift1(a)[31] == a[0] && Shift1(b)[31] == b[0];
    forall i | 1 <= i < 32
      ensures a[i] == b[i]
    {
      assert Shift1(a)[i - 1] == Shift1(b)[i - 1];
    }
  }

  lemma {:induction false} AdvanceInjective(a: Reg, b: Reg, n: nat)
    requires Advance(a, n) == Advance(b, n)
    ensures a == b
    decreases n
  {
    if n == 0 {
    } else {
      Shift1Injective(Advance(a, n - 1), Advance(b, n - 1));
      AdvanceInjective(a, b, n - 1);
    }
  }

  function Unshift1(r: Reg): Reg {
    var s := if r[31] then Xor(r, GENERATOR) else r;
    [r[31]] + s[..31]
  }

  lemma Unshift1Inverse(r: Reg)
    ensures Shift1(Unshift1(r)) == r
  {
    GeneratorConstantTerm();
  }

  function Retreat(r: Reg, n: nat): Reg
    decreases n
  {
    if n == 0 then r else Retreat(Unshift1(r), n - 1)
  }

  lemma {:induction false} RetreatInverse(r: Reg, n: nat)
    ensures Advance(Retreat(r, n), n) == r
    decreases n
  {
    if n == 0 {
    } else {
      RetreatInverse(Unshift1(r), n - 1);
      Unshift1Inverse(r);
    }
  }

  // While the leading coefficients are zero there is nothing to reduce.
  lemma {:induction false} AdvanceFree(r: Reg, n: nat)
    requires n <= 32
    requires r[..n] == Zeros(n)
    ensures Advance(r, n) == r[n..] + Zeros(n)
    decreases n
  {
    if n > 0 {
      assert r[..n - 1] == Zeros(n)[..n - 1] == Zeros(n - 1);
      AdvanceFree(r, n - 1);
      assert !r[n - 1] by { assert r[..n][n - 1] == Zeros(n)[n - 1]; }
    } else {
      assert r[0..] + Zeros(0) == r;
    }
  }

  function Padded(bits: seq<bool>): Reg
    requires |bits| <= 32
  {
    bits + Zeros(32 - |bits|)
  }

  // Feeding up to 32 bits is the same as adding them to the top of the
  // register and advancing.
  lemma {:induction false} Absorb(r: Reg, bits: seq<bool>)
    requires |bits| <= 32
    ensures Consume(r, bits) == Advance(Xor(r, Padded(bits)), |bits|)
    decreases |bits|
  {
    if bits == [] {
      XorZeros(r);
      assert Padded(bits) == Zeros(32);
    } else {
      var n := |bits| - 1;
      var init, last := bits[..n], bits[n];
      Absorb(r, init);
      var unit := Zeros(32)[n := last];
      var top := Zeros(32)[0 := last];
      assert Padded(bits) == Xor(Padded(init), unit);
      XorAssociative(r, Padded(init), unit);
      var q := Xor(r, Padded(init));
      AdvanceLinear(q, unit, n);
      AdvanceFree(unit, n);
      assert Advance(unit, n) == top;
      assert Xor(Advance(q, n), top) == Advance(q, n)[0 := Advance(q, n)[0] != last];
    }
  }

  lemma {:induction false} ConsumeZeros(r: Reg, n: nat)
    ensures Consume(r, Zeros(n)) == Advance(r, n)
    decreases n
  {
    if n == 0 {
    } else {
      assert Zeros(n)[..n - 1] == Zeros(n - 1);
      ConsumeZeros(r, n - 1);
      var q := Advance(r, n - 1);
      assert q[0 := q[0]] == q;
    }
  }

  lemma {:induction false} AdvanceZero(n: nat)
    ensures Advance(ZERO, n) == ZERO
    decreases n
  {
    if n == 0 {
    } else {
      AdvanceZero(n - 1);
    }
  }

  // The register after `bits` from r is the register after `bits` from zero
  // plus r advanced by as many zero bits.
  lemma ConsumeSplit(r: Reg, bits: seq<bool>)
    ensures Consume(r, bits) == Xor(Consume(ZERO, bits), Advance(r, |bits|))
  {
    ConsumeLinear(ZERO, r, bits, Zeros(|bits|));
    XorZeros(r);
    XorZeros(bits);
    ConsumeZeros(r, |bits|);
  }

  // The same bits keep different registers different.
  lemma ConsumeInjective(a: Reg, b: Reg, bits: seq<bool>)
    requires Consume(a, bits) == Consume(b, bits)
    ensures a == b
  {
    ConsumeSplit(a, bits);
    ConsumeSplit(b, bits);
    var base := Consume(ZERO, bits);
    var p, q := Advance(a, |bits|), Advance(b, |bits|);
    assert p == q by {
      forall i | 0 <= i < 32 ensures p[i] == q[i] {
        assert Xor(base, p)[i] == Xor(base, q)[i];
      }
    }
    AdvanceInjective(a, b, |bits|);
  }

  // From the same register, two different strings of at most 32 bits lead to
  // different registers.
  lemma ShortStringsDiffer(r: Reg, a: seq<bool>, b: seq<bool>)
    requires |a| == |b| <= 32
    requires Consume(r, a) == Consume(r, b)
    ensures a == b
  {
    Absorb(r, a);
    Absorb(r, b);
    var p, q := Xor(r, Padded(a)), Xor(r, Padded(b));
    AdvanceInjective(p, q, |a|);
    forall i | 0 <= i < |a| ensures a[i] == b[i] {
      assert p[i] == (r[i] != a[i]) && q[i] == (r[i] != b[i]);
    }
  }
}
