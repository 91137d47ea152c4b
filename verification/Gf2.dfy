/** Polynomials over GF(2), written as bit strings with the highest power first.
    Subtraction is `Xor`, and multiplication is the schoolbook sum of shifted copies. */
module Gf2 {

  type Bits = seq<bool>

  /** Addition, and subtraction, in GF(2). */
  predicate Plus(a: bool, b: bool) {
    a != b
  }

  function Zeros(n: nat): Bits {
    seq(n, _ => false)
  }

  function Xor(a: Bits, b: Bits): (c: Bits)
    requires |a| == |b|
    ensures |c| == |a|
  {
    seq(|a|, i requires 0 <= i < |a| => Plus(a[i], b[i]))
  }

  /** The product of `a` (below degree |a|) and `g` (of degree |g| - 1). */
  function Mul(a: Bits, g: Bits): (p: Bits)
    requires |g| > 0
    ensures |p| == |a| + |g| - 1
  {
    if a == [] then Zeros(|g| - 1)
    else Xor(Scaled(a[0], g) + Zeros(|a| - 1), [false] + Mul(a[1..], g))
  }

  function Scaled(c: bool, g: Bits): (s: Bits)
    ensures |s| == |g|
  {
    if c then g else Zeros(|g|)
  }

  /** `r` is what is left of `d` after dividing by `g`: d = q * g + r with deg r < deg g. */
  ghost predicate IsRemainder(d: Bits, g: Bits, r: Bits)
    requires |g| > 0 && |d| >= |g| - 1
  {
    |r| == |g| - 1 && exists q: Bits :: Divides(d, g, q, r)
  }

  ghost predicate Divides(d: Bits, g: Bits, q: Bits, r: Bits)
    requires |g| > 0 && |d| >= |g| - 1 && |r| == |g| - 1
  {
    |q| == |d| - |r| && d == Xor(Mul(q, g), Zeros(|q|) + r)
  }

  lemma XorRegroup(a: Bits, b: Bits, c: Bits)
    requires |a| == |b| + 1 && |c| == |b| + 1
    ensures Xor(a + [false], [false] + Xor(b + [false], c)) == Xor(Xor(a, [false] + b) + [false], [false] + c)
  {
  }

  lemma PadRight(a: Bits, n: nat)
    ensures a + Zeros(n + 1) == a + Zeros(n) + [false]
  {
  }

  lemma PadLeft(n: nat, a: Bits)
    ensures Zeros(n + 1) + a == [false] + (Zeros(n) + a)
  {
  }

  /** Multiplying by a longer left factor: append one coefficient at the low end. */
  lemma {:induction false} MulSnoc(a: Bits, c: bool, g: Bits)
    requires |g| > 0
    ensures Mul(a + [c], g) == Xor(Mul(a, g) + [false], Zeros(|a|) + Scaled(c, g))
  {
    if a == [] {
      assert Mul([c][1..], g) == Zeros(|g| - 1);
      assert [] + [c] == [c];
    } else {
      var t, s, n := a[1..], Scaled(c, g), |a|;
      MulSnoc(t, c, g);
      assert (a + [c])[1..] == t + [c];
      PadRight(Scaled(a[0], g), n - 1);
      PadLeft(n - 1, s);
      XorRegroup(Scaled(a[0], g) + Zeros(n - 1), Mul(t, g), Zeros(n - 1) + s);
    }
  }

  /** Peeling the top coefficient off a division. */
  lemma DivisionStep(g: Bits, q: Bits, r: Bits)
    requires |g| > 1 && |r| == |g| - 1 && |q| > 0
    ensures Xor(Mul(q, g), Zeros(|q|) + r)
         == Xor(Scaled(q[0], g) + Zeros(|q| - 1), [false] + Xor(Mul(q[1..], g), Zeros(|q| - 1) + r))
  {
    var n, m := |q| - 1, Mul(q[1..], g);
    PadLeft(n, r);
    XorAssoc(Scaled(q[0], g) + Zeros(n), [false] + m, [false] + (Zeros(n) + r));
    XorTail(m, Zeros(n) + r);
  }

  lemma XorAssoc(a: Bits, b: Bits, c: Bits)
    requires |a| == |b| == |c|
    ensures Xor(Xor(a, b), c) == Xor(a, Xor(b, c))
  {
  }

  lemma XorTail(a: Bits, b: Bits)
    requires |a| == |b|
    ensures Xor([false] + a, [false] + b) == [false] + Xor(a, b)
  {
  }

  lemma XorCancel(a: Bits, b: Bits, c: Bits)
    requires |a| == |b| == |c| && Xor(a, b) == Xor(a, c)
    ensures b == c
  {
    forall i | 0 <= i < |b| ensures b[i] == c[i] {
      assert Xor(a, b)[i] == Xor(a, c)[i];
    }
  }

  /** Quotient and remainder are unique: a monic divisor lets the top coefficient be read off. */
  lemma {:induction false} DivisionUnique(g: Bits, q: Bits, r: Bits, q': Bits, r': Bits)
    requires |g| > 1 && g[0] && |q| == |q'| && |r| == |r'| == |g| - 1
    requires Xor(Mul(q, g), Zeros(|q|) + r) == Xor(Mul(q', g), Zeros(|q'|) + r')
    ensures q == q' && r == r'
  {
    if q == [] {
      XorCancel(Mul(q, g), Zeros(0) + r, Zeros(0) + r');
      assert Zeros(0) + r == r && Zeros(0) + r' == r';
    } else {
      DivisionStep(g, q, r);
      DivisionStep(g, q', r');
      var t, t', n := q[1..], q'[1..], |q| - 1;
      var e, e' := Xor(Mul(t, g), Zeros(n) + r), Xor(Mul(t', g), Zeros(n) + r');
      assert Xor(Scaled(q[0], g) + Zeros(n), [false] + e)[0] == q[0];
      assert Xor(Scaled(q'[0], g) + Zeros(n), [false] + e')[0] == q'[0];
      XorCancel(Scaled(q[0], g) + Zeros(n), [false] + e, [false] + e');
      assert e == ([false] + e)[1..] == ([false] + e')[1..] == e';
      DivisionUnique(g, t, r, t', r');
      assert q == [q[0]] + t && q' == [q'[0]] + t';
    }
  }

  /** The lowest coefficient of a product with an odd divisor is that of the left factor. */
  lemma {:induction false} MulLast(a: Bits, g: Bits)
    requires |a| > 0 && |g| > 0 && g[|g| - 1]
    ensures Mul(a, g)[|a| + |g| - 2] == a[|a| - 1]
  {
    MulSnoc(a[..|a| - 1], a[|a| - 1], g);
    assert a == a[..|a| - 1] + [a[|a| - 1]];
  }

  lemma PadCancel(m: Bits, e: Bits, k: nat)
    requires m + [false] == e + Zeros(k + 1)
    ensures m == e + Zeros(k)
  {
    PadRight(e, k);
    assert m == (m + [false])[..|m|] == (e + Zeros(k) + [false])[..|m|] == e + Zeros(k);
  }

  /** A zero coefficient at the low end of a factor is one at the low end of the product. */
  lemma MulSnocZero(a: Bits, g: Bits)
    requires |g| > 0
    ensures Mul(a + [false], g) == Mul(a, g) + [false]
  {
    MulSnoc(a, false, g);
    var m := Mul(a, g) + [false];
    assert Xor(m, Zeros(|a|) + Zeros(|g|)) == m;
  }

  /** Powers of x are invertible modulo an odd divisor: trailing zeros of a multiple come from the factor. */
  lemma {:induction false} MultipleOfShift(e: Bits, k: nat, q: Bits, g: Bits) returns (p: Bits)
    requires |g| > 0 && g[|g| - 1] && |q| >= k && Mul(q, g) == e + Zeros(k)
    ensures |p| == |q| - k && Mul(p, g) == e
    decreases k
  {
    if k == 0 {
      assert e + Zeros(0) == e;
      p := q;
    } else {
      var last := |q| - 1;
      MulLast(q, g);
      assert (e + Zeros(k))[|e| + k - 1] == false;
      assert q == q[..last] + [false];
      MulSnocZero(q[..last], g);
      PadCancel(Mul(q[..last], g), e, k - 1);
      p := MultipleOfShift(e, k - 1, q[..last], g);
    }
  }

  /** The converse: appending zeros to the factor appends zeros to the product. */
  lemma {:induction false} ShiftOfMultiple(p: Bits, k: nat, g: Bits)
    requires |g| > 0
    ensures Mul(p + Zeros(k), g) == Mul(p, g) + Zeros(k)
  {
    if k == 0 {
      assert p + Zeros(0) == p;
      assert Mul(p, g) + Zeros(0) == Mul(p, g);
    } else {
      ShiftOfMultiple(p, k - 1, g);
      PadRight(p, k - 1);
      MulSnocZero(p + Zeros(k - 1), g);
      PadRight(Mul(p, g), k - 1);
    }
  }
}
