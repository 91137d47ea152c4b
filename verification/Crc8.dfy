/** The AHT20 checksum as polynomial arithmetic: generator x^8 + x^5 + x^4 + 1, register preset 0xFF,
    most significant bit first. The byte-wise loop of the driver is proved against this in `Aht20`. */
module Crc8 {
  import opened Gf2
  import opened Octets

  const GENERATOR: Bits := [true, false, false, true, true, false, false, false, true]
  const PRESET := Octet(true, true, true, true, true, true, true, true)

  function ToBits(b: Octet): (s: Bits)
    ensures |s| == 8
  {
    seq(8, i requires 0 <= i < 8 => BitAt(b, i))
  }

  /** The coefficients of a message, first byte first, most significant bit first. */
  function MessageBits(m: seq<Octet>): (s: Bits)
    ensures |s| == 8 * |m|
  {
    if m == [] then [] else MessageBits(m[..|m| - 1]) + ToBits(m[|m| - 1])
  }

  /** The register after taking in a bit string from the preset value. */
  function Register(preset: Octet, bits: Bits): Octet {
    if bits == [] then preset else Feed(Register(preset, bits[..|bits| - 1]), bits[|bits| - 1])
  }

  function Crc(m: seq<Octet>): Octet {
    Register(PRESET, MessageBits(m))
  }

  /** M(x) * x^8 + preset(x) * x^n for an n-bit message. */
  function Dividend(preset: Octet, bits: Bits): (d: Bits)
    ensures |d| == |bits| + 8
  {
    Xor(bits + Zeros(8), ToBits(preset) + Zeros(|bits|))
  }

  // ---------- the register is the remainder ----------

  lemma FeedCoefficient(r: Octet, bit: bool, i: nat)
    requires i < 9
    ensures Plus((ToBits(r) + [false])[i], ([bit] + Zeros(8))[i])
         == Plus(Scaled(Plus(r.b7, bit), GENERATOR)[i], ([false] + ToBits(Feed(r, bit)))[i])
  {
    ScaledGenerator(Plus(r.b7, bit), i);
    FeedBit(r, bit, i);
    assert (ToBits(r) + [false])[i] == BitAt(r, i);
    assert ([bit] + Zeros(8))[i] == (i == 0 && bit);
    assert ([false] + ToBits(Feed(r, bit)))[i] == (i > 0 && BitAt(Feed(r, bit), i - 1));
  }

  lemma FeedBit(r: Octet, bit: bool, i: nat)
    requires i < 9
    ensures var c := Plus(r.b7, bit);
            Plus(BitAt(r, i), i == 0 && bit)
            == Plus(c && (i == 0 || i == 3 || i == 4 || i == 8), i > 0 && BitAt(Feed(r, bit), i - 1))
  {
    if i > 0 { BitAtFeed(r, bit, i - 1); }
  }

  /** One step of the register, seen on its coefficients. */
  lemma FeedCoefficients(r: Octet, bit: bool)
    ensures Xor(ToBits(r) + [false], [bit] + Zeros(8))
         == Xor(Scaled(Plus(r.b7, bit), GENERATOR), [false] + ToBits(Feed(r, bit)))
  {
    var x, y := Xor(ToBits(r) + [false], [bit] + Zeros(8)),
                Xor(Scaled(Plus(r.b7, bit), GENERATOR), [false] + ToBits(Feed(r, bit)));
    forall i | 0 <= i < 9 ensures x[i] == y[i] {
      FeedCoefficient(r, bit, i);
    }
  }

  lemma ScaledGenerator(c: bool, i: nat)
    requires i < 9
    ensures Scaled(c, GENERATOR)[i] == (c && (i == 0 || i == 3 || i == 4 || i == 8))
  {
  }

  lemma XorPad(n: nat, a: Bits, b: Bits)
    requires |a| == |b|
    ensures Xor(Zeros(n) + a, Zeros(n) + b) == Zeros(n) + Xor(a, b)
  {
  }

  lemma XorSnoc(a: Bits, b: Bits)
    requires |a| == |b|
    ensures Xor(a, b) + [false] == Xor(a + [false], b + [false])
  {
  }

  lemma DividendSnoc(preset: Octet, bits: Bits, bit: bool)
    ensures Dividend(preset, bits + [bit])
         == Xor(Dividend(preset, bits) + [false], Zeros(|bits|) + ([bit] + Zeros(8)))
  {
  }

  /** Regrouping for one more quotient coefficient, on plain bit strings. */
  lemma DivisionSnoc(m: Bits, n: nat, r: Bits, s: Bits, bit: bool, f: Bits)
    requires |m| == n + 8 && |r| == 8 && |s| == 9 && |f| == 8
    requires Xor(r + [false], [bit] + Zeros(8)) == Xor(s, [false] + f)
    ensures Xor(Xor(m, Zeros(n) + r) + [false], Zeros(n) + ([bit] + Zeros(8)))
         == Xor(Xor(m + [false], Zeros(n) + s), Zeros(n + 1) + f)
  {
    var z, x, y, t := Zeros(n), r + [false], [bit] + Zeros(8), [false] + f;
    calc {
      Xor(Xor(m, z + r) + [false], z + y);
      { XorSnoc(m, z + r); assert (z + r) + [false] == z + x; }
      Xor(Xor(m + [false], z + x), z + y);
      { XorAssoc(m + [false], z + x, z + y); XorPad(n, x, y); }
      Xor(m + [false], z + Xor(s, t));
      { XorAssoc(m + [false], z + s, z + t); XorPad(n, s, t); }
      Xor(Xor(m + [false], z + s), z + t);
      { assert z + t == Zeros(n + 1) + f; }
      Xor(Xor(m + [false], z + s), Zeros(n + 1) + f);
    }
  }

  /** Long division, one message bit at a time. */
  lemma {:induction false} RegisterDivides(preset: Octet, bits: Bits) returns (q: Bits)
    ensures |q| == |bits|
    ensures Divides(Dividend(preset, bits), GENERATOR, q, ToBits(Register(preset, bits)))
  {
    if bits == [] {
      q := [];
      var d, r := Dividend(preset, bits), ToBits(preset);
      assert forall i :: 0 <= i < 8 ==> d[i] == r[i];
      assert Mul(q, GENERATOR) == Zeros(8);
      assert d == Xor(Zeros(8), Zeros(0) + r);
    } else {
      var n := |bits| - 1;
      var front, bit := bits[..n], bits[n];
      assert bits == front + [bit];
      var r := Register(preset, front);
      var c := Plus(r.b7, bit);
      var q0 := RegisterDivides(preset, front);
      q := q0 + [c];
      FeedCoefficients(r, bit);
      DividendSnoc(preset, front, bit);
      MulSnoc(q0, c, GENERATOR);
      DivisionSnoc(Mul(q0, GENERATOR), n, ToBits(r), Scaled(c, GENERATOR), bit, ToBits(Feed(r, bit)));
    }
  }

  lemma ToBitsInjective(a: Octet, b: Octet)
    requires ToBits(a) == ToBits(b)
    ensures a == b
  {
    forall i | 0 <= i < 8 ensures BitAt(a, i) == BitAt(b, i) {
      assert ToBits(a)[i] == ToBits(b)[i];
    }
    SameBits(a, b);
  }

  lemma RegisterIsTheRemainder(preset: Octet, bits: Bits, c: Octet)
    requires IsRemainder(Dividend(preset, bits), GENERATOR, ToBits(c))
    ensures c == Register(preset, bits)
  {
    var r := Register(preset, bits);
    var q := RegisterDivides(preset, bits);
    var q' :| Divides(Dividend(preset, bits), GENERATOR, q', ToBits(c));
    DivisionUnique(GENERATOR, q, ToBits(r), q', ToBits(c));
    ToBitsInjective(c, r);
  }

  lemma RegisterIsRemainder(preset: Octet, bits: Bits)
    ensures IsRemainder(Dividend(preset, bits), GENERATOR, ToBits(Register(preset, bits)))
  {
    var q := RegisterDivides(preset, bits);
  }

  /** The checksum of a message is the one remainder of M(x) x^8 + 0xFF(x) x^(8n). */
  lemma CrcIsRemainder(m: seq<Octet>, c: Octet)
    ensures IsRemainder(Dividend(PRESET, MessageBits(m)), GENERATOR, ToBits(c)) <==> c == Crc(m)
  {
    RegisterIsRemainder(PRESET, MessageBits(m));
    if IsRemainder(Dividend(PRESET, MessageBits(m)), GENERATOR, ToBits(c)) {
      RegisterIsTheRemainder(PRESET, MessageBits(m), c);
    }
  }

  // ---------- linearity ----------

  function XorBytes(a: seq<Octet>, b: seq<Octet>): (c: seq<Octet>)
    requires |a| == |b|
    ensures |c| == |a|
  {
    seq(|a|, i requires 0 <= i < |a| => XorOctet(a[i], b[i]))
  }

  lemma {:induction false} RegisterXor(p: Octet, q: Octet, a: Bits, b: Bits)
    requires |a| == |b|
    ensures Register(XorOctet(p, q), Xor(a, b)) == XorOctet(Register(p, a), Register(q, b))
  {
    if a != [] {
      var n := |a| - 1;
      var u, v := a[..n], b[..n];
      assert Xor(a, b)[..n] == Xor(u, v);
      RegisterXor(p, q, u, v);
      FeedXor(Register(p, u), Register(q, v), a[n], b[n]);
    }
  }

  lemma ToBitsXor(a: Octet, b: Octet)
    ensures ToBits(XorOctet(a, b)) == Xor(ToBits(a), ToBits(b))
  {
    var x, y, z := ToBits(a), ToBits(b), ToBits(XorOctet(a, b));
    forall i | 0 <= i < 8 ensures z[i] == Plus(x[i], y[i]) {
      BitAtXor(a, b, i);
    }
  }

  lemma XorConcat(a: Bits, b: Bits, x: Bits, y: Bits)
    requires |a| == |b| && |x| == |y|
    ensures Xor(a + x, b + y) == Xor(a, b) + Xor(x, y)
  {
  }

  lemma {:induction false} MessageBitsXor(a: seq<Octet>, b: seq<Octet>)
    requires |a| == |b|
    ensures MessageBits(XorBytes(a, b)) == Xor(MessageBits(a), MessageBits(b))
  {
    if a != [] {
      var n := |a| - 1;
      var u, v := a[..n], b[..n];
      assert XorBytes(a, b)[..n] == XorBytes(u, v);
      MessageBitsXor(u, v);
      ToBitsXor(a[n], b[n]);
      XorConcat(MessageBits(u), MessageBits(v), ToBits(a[n]), ToBits(b[n]));
    }
  }

  /** The checksum is affine over XOR of messages of one length. */
  lemma CrcAffine(a: seq<Octet>, b: seq<Octet>, c: seq<Octet>)
    requires |a| == |b| == |c|
    ensures Crc(XorBytes(XorBytes(a, b), c)) == XorOctet(XorOctet(Crc(a), Crc(b)), Crc(c))
  {
    MessageBitsXor(a, b);
    MessageBitsXor(XorBytes(a, b), c);
    RegisterXor(PRESET, PRESET, MessageBits(a), MessageBits(b));
    RegisterXor(XorOctet(PRESET, PRESET), PRESET, Xor(MessageBits(a), MessageBits(b)), MessageBits(c));
  }

  // ---------- one byte at a time ----------

  lemma {:induction false} RegisterConcat(preset: Octet, a: Bits, b: Bits)
    ensures Register(preset, a + b) == Register(Register(preset, a), b)
  {
    if b == [] {
      assert a + b == a;
    } else {
      var n := |b| - 1;
      assert (a + b)[..|a| + n] == a + b[..n];
      RegisterConcat(preset, a, b[..n]);
    }
  }

  lemma {:induction false} RegisterFeedTop(r: Octet, b: Octet, k: nat)
    requires k <= 8
    ensures Register(r, ToBits(b)[..k]) == FeedTop(k, r, b)
  {
    if k > 0 {
      RegisterFeedTop(r, b, k - 1);
      assert ToBits(b)[..k][..k - 1] == ToBits(b)[..k - 1];
    }
  }

  /** Feeding the eight bits of a byte is the driver's `crc ^= byte` followed by eight shifts. */
  lemma RegisterByte(r: Octet, b: Octet)
    ensures Register(r, ToBits(b)) == Shifts(WIDTH, XorOctet(r, b))
  {
    assert ToBits(b)[..WIDTH] == ToBits(b);
    RegisterFeedTop(r, b, WIDTH);
    FeedTopShifts(WIDTH, r, b);
    XorZero(FeedTop(WIDTH, r, b));
    assert Doublings(WIDTH, b) == ZERO;
  }

  lemma CrcSnoc(m: seq<Octet>, b: Octet)
    ensures Crc(m + [b]) == Shifts(WIDTH, XorOctet(Crc(m), b))
  {
    assert (m + [b])[..|m|] == m;
    RegisterConcat(PRESET, MessageBits(m), ToBits(b));
    RegisterByte(Crc(m), b);
  }

  /** A message followed by its own checksum always leaves residue zero, and nothing else does. */
  lemma ResidueZero(m: seq<Octet>, c: Octet)
    ensures Crc(m + [c]) == ZERO <==> c == Crc(m)
  {
    CrcSnoc(m, c);
    ShiftsInjective(WIDTH, XorOctet(Crc(m), c), ZERO);
  }
}
