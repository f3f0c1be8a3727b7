// Bit strings, first bit first, with the pointwise operations that C's `^` and
// `~` perform on unsigned words.
module Bits {
  function Zeros(n: nat): (s: seq<bool>)
    ensures |s| == n
    ensures forall i | 0 <= i < n :: !s[i]
  {
    seq(n, _ => false)
  }

  function Xor(a: seq<bool>, b: seq<bool>): (s: seq<bool>)
    requires |a| == |b|
    ensures |s| == |a|
    ensures forall i | 0 <= i < |a| :: s[i] == (a[i] != b[i])
  {
    seq(|a|, i requires 0 <= i < |a| => a[i] != b[i])
  }

  function Complement(a: seq<bool>): (s: seq<bool>)
    ensures |s| == |a|
    ensures forall i | 0 <= i < |a| :: s[i] == !a[i]
  {
    seq(|a|, i requires 0 <= i < |a| => !a[i])
  }

  lemma XorConcat(a: seq<bool>, b: seq<bool>, c: seq<bool>, d: seq<bool>)
    requires |a| == |c| && |b| == |d|
    ensures Xor(a + b, c + d) == Xor(a, c) + Xor(b, d)
  {}

  lemma XorZeros(a: seq<bool>)
    ensures Xor(a, Zeros(|a|)) == a
    ensures Xor(Zeros(|a|), a) == a
    ensures Xor(a, a) == Zeros(|a|)
  {}

  lemma XorAssociative(a: seq<bool>, b: seq<bool>, c: seq<bool>)
    requires |a| == |b| == |c|
    ensures Xor(Xor(a, b), c) == Xor(a, Xor(b, c))
  {}
}
