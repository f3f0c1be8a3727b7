// Polynomials over GF(2): a polynomial is the set of its exponents.
module Gf2 {
  type Poly = set<nat>

  function Plus(p: Poly, q: Poly): Poly {
    (p - q) + (q - p)
  }

  // p * x^n
  function TimesPower(p: Poly, n: nat): Poly {
    set e | e in p :: e + n
  }

  // The ways of writing n as a sum of an exponent of p and one of q.
  function Ways(p: Poly, q: Poly, n: nat): set<nat> {
    set i | i in p && i <= n && n - i in q
  }

  // The product: x^n occurs when it arises an odd number of times.
  ghost function Times(p: Poly, q: Poly): Poly {
    set i, j | i in p && j in q && |Ways(p, q, i + j)| % 2 == 1 :: i + j
  }

  lemma TimesHas(p: Poly, q: Poly, n: nat)
    ensures n in Times(p, q) <==> |Ways(p, q, n)| % 2 == 1
  {
    if |Ways(p, q, n)| % 2 == 1 {
      assert Ways(p, q, n) != {};
      var i :| i in Ways(p, q, n);
      assert i in p && n - i in q && i + (n - i) == n;
    }
  }

  // |A plus B| has the parity of |A| + |B|.
  lemma PlusParity(a: set<nat>, b: set<nat>)
    ensures |Plus(a, b)| % 2 == (|a| + |b|) % 2
  {
    assert a == (a - b) + a * b;
    assert b == (b - a) + a * b;
    assert |Plus(a, b)| == |a - b| + |b - a|;
    assert |a| + |b| == |a - b| + |b - a| + 2 * |a * b|;
  }

  lemma WaysPlus(p: Poly, p': Poly, q: Poly, n: nat)
    ensures Ways(Plus(p, p'), q, n) == Plus(Ways(p, q, n), Ways(p', q, n))
  {}

  lemma PlusHas(p: Poly, q: Poly, n: nat)
    ensures n in Plus(p, q) <==> (n in p) != (n in q)
  {}

  // (p + p') q = p q + p' q
  lemma TimesPlus(p: Poly, p': Poly, q: Poly)
    ensures Times(Plus(p, p'), q) == Plus(Times(p, q), Times(p', q))
  {
    hide Times; hide Ways; hide Plus;
    forall n: nat
      ensures n in Times(Plus(p, p'), q) <==> n in Plus(Times(p, q), Times(p', q))
    {
      TimesHas(Plus(p, p'), q, n);
      TimesHas(p, q, n);
      TimesHas(p', q, n);
      WaysPlus(p, p', q, n);
      PlusHas(Times(p, q), Times(p', q), n);
      PlusParity(Ways(p, q, n), Ways(p', q, n));
    }
  }

  lemma ShiftedHas(s: set<nat>, n: nat, k: nat)
    ensures n in TimesPower(s, k) <==> n >= k && n - k in s
  {
    if n >= k && n - k in s { assert n == (n - k) + k; }
  }

  lemma {:induction false} ShiftedSize(s: set<nat>)
    ensures |TimesPower(s, 1)| == |s|
    decreases s
  {
    if s == {} {
      assert TimesPower(s, 1) == {};
    } else {
      var e :| e in s;
      ShiftedSize(s - {e});
      ShiftedInsert(s, e);
    }
  }

  lemma ShiftedInsert(s: set<nat>, e: nat)
    requires e in s
    ensures TimesPower(s, 1) == TimesPower(s - {e}, 1) + {e + 1}
    ensures e + 1 !in TimesPower(s - {e}, 1)
  {
    hide TimesPower;
    forall n: nat ensures n in TimesPower(s, 1) <==> n in TimesPower(s - {e}, 1) + {e + 1} {
      ShiftedHas(s, n, 1);
      ShiftedHas(s - {e}, n, 1);
    }
    ShiftedHas(s - {e}, e + 1, 1);
  }

  lemma WaysHas(p: Poly, q: Poly, n: nat, i: nat)
    ensures i in Ways(p, q, n) <==> i in p && i <= n && n - i in q
  {}

  lemma WaysShift(p: Poly, q: Poly, n: nat)
    ensures Ways(TimesPower(p, 1), q, n + 1) == TimesPower(Ways(p, q, n), 1)
  {
    hide TimesPower; hide Ways;
    forall i: nat
      ensures i in Ways(TimesPower(p, 1), q, n + 1) <==> i in TimesPower(Ways(p, q, n), 1)
    {
      WaysHas(TimesPower(p, 1), q, n + 1, i);
      ShiftedHas(p, i, 1);
      ShiftedHas(Ways(p, q, n), i, 1);
      if i >= 1 { WaysHas(p, q, n, i - 1); }
    }
  }

  lemma NoWays(p: Poly, q: Poly)
    ensures Ways(TimesPower(p, 1), q, 0) == {}
  {}

  // (p x) q = (p q) x
  lemma TimesX(p: Poly, q: Poly)
    ensures Times(TimesPower(p, 1), q) == TimesPower(Times(p, q), 1)
  {
    hide TimesPower; hide Ways; hide Times;
    forall n: nat
      ensures n in Times(TimesPower(p, 1), q) <==> n in TimesPower(Times(p, q), 1)
    {
      TimesHas(TimesPower(p, 1), q, n);
      ShiftedHas(Times(p, q), n, 1);
      if n == 0 {
        NoWays(p, q);
      } else {
        TimesHas(p, q, n - 1);
        WaysShift(p, q, n - 1);
        ShiftedSize(Ways(p, q, n - 1));
      }
    }
  }

  lemma WaysOne(q: Poly, n: nat)
    ensures Ways({0}, q, n) == if n in q then {0} else {}
  {}

  lemma TimesOne(q: Poly)
    ensures Times({0}, q) == q
  {
    hide Ways; hide Times;
    forall n: nat
      ensures n in Times({0}, q) <==> n in q
    {
      TimesHas({0}, q, n);
      WaysOne(q, n);
    }
  }

  lemma TimesNothing(q: Poly)
    ensures Times({}, q) == {}
  {}

  // g has degree d: x^d is its highest power.
  ghost predicate HasDegree(g: Poly, d: nat) {
    d in g && forall e | e in g :: e <= d
  }

  ghost predicate Below(r: Poly, d: nat) {
    forall e | e in r :: e < d
  }

  // r is the remainder of p on division by g, whose degree is d.
  ghost predicate IsRemainder(r: Poly, p: Poly, g: Poly, d: nat) {
    Below(r, d) && exists q: Poly :: p == Plus(Times(q, g), r)
  }

  lemma {:induction false} Highest(p: Poly) returns (m: nat)
    requires p != {}
    ensures HasDegree(p, m)
    decreases p
  {
    var e :| e in p;
    if p == {e} {
      m := e;
    } else {
      var h := Highest(p - {e});
      m := if h < e then e else h;
      assert p == (p - {e}) + {e};
    }
  }

  lemma OneWay(q: Poly, g: Poly, d: nat, m: nat)
    requires HasDegree(g, d) && HasDegree(q, m)
    ensures Ways(q, g, m + d) == {m}
  {
    hide Ways;
    WaysHas(q, g, m + d, m);
    var ways := Ways(q, g, m + d);
    forall i | i in ways ensures i == m {
      WaysHas(q, g, m + d, i);
      assert m + d - i in g;
    }
    assert ways <= {m} && m in ways;
  }

  // A nonzero multiple of g reaches g's degree.
  lemma MultipleIsHigh(q: Poly, g: Poly, d: nat)
    requires HasDegree(g, d) && q != {}
    ensures !Below(Times(q, g), d)
  {
    hide Ways; hide Times; hide HasDegree;
    var m := Highest(q);
    OneWay(q, g, d, m);
    TimesHas(q, g, m + d);
    assert m + d in Times(q, g);
  }

  lemma PlusCancels(a: Poly, b: Poly, c: Poly, e: Poly)
    requires Plus(a, b) == Plus(c, e)
    ensures Plus(a, c) == Plus(b, e)
  {
    forall n: nat ensures n in Plus(a, c) <==> n in Plus(b, e) {
      assert n in Plus(a, b) <==> n in Plus(c, e);
    }
  }

  lemma RemainderUnique(r: Poly, r': Poly, p: Poly, g: Poly, d: nat)
    requires HasDegree(g, d)
    requires IsRemainder(r, p, g, d) && IsRemainder(r', p, g, d)
    ensures r == r'
  {
    var q: Poly :| p == Plus(Times(q, g), r);
    var q': Poly :| p == Plus(Times(q', g), r');
    PlusCancels(Times(q, g), r, Times(q', g), r');
    TimesPlus(q, q', g);
    assert Below(Plus(r, r'), d);
    if Plus(q, q') != {} {
      MultipleIsHigh(Plus(q, q'), g, d);
    }
    TimesNothing(g);
    assert Plus(r, r') == {};
    forall n: nat ensures n in r <==> n in r' {
      assert n !in Plus(r, r');
    }
  }
}
