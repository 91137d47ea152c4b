/** What the checksum test of a received frame can and cannot miss. A frame is a message followed by its
    checksum byte; `Diff` is the set of bit positions in which two frames differ. */
module ErrorDetection {
  import opened Gf2
  import opened Octets
  import opened Crc8

  /** The driver's test: recompute over all but the last byte and compare. */
  predicate Accepts(frame: seq<Octet>) {
    |frame| > 0 && Crc(frame[..|frame| - 1]) == frame[|frame| - 1]
  }

  function Ones(e: Bits): set<nat> {
    set i: nat | i < |e| && e[i]
  }

  function ErrorBits(f: seq<Octet>, g: seq<Octet>): (e: Bits)
    requires |f| == |g|
    ensures |e| == 8 * |f|
  {
    Xor(MessageBits(f), MessageBits(g))
  }

  function Diff(f: seq<Octet>, g: seq<Octet>): set<nat>
    requires |f| == |g|
  {
    Ones(ErrorBits(f, g))
  }

  lemma AcceptsIffResidueZero(f: seq<Octet>)
    requires |f| > 0
    ensures Accepts(f) <==> Crc(f) == ZERO
  {
    var n := |f| - 1;
    assert f == f[..n] + [f[n]];
    ResidueZero(f[..n], f[n]);
  }

  lemma XorSelf(a: Octet, b: Octet)
    ensures XorOctet(a, a) == ZERO
    ensures XorOctet(a, b) == ZERO ==> a == b
  {
  }

  /** Only the error pattern matters: a corrupted frame passes when the pattern alone leaves residue zero. */
  lemma AcceptsIffPatternVanishes(f: seq<Octet>, g: seq<Octet>)
    requires |f| == |g| && Accepts(f)
    ensures Accepts(g) <==> Register(ZERO, ErrorBits(f, g)) == ZERO
  {
    AcceptsIffResidueZero(f);
    AcceptsIffResidueZero(g);
    RegisterXor(PRESET, PRESET, MessageBits(f), MessageBits(g));
    XorSelf(PRESET, PRESET);
    XorSelf(Crc(f), Crc(g));
  }

  // ---------- exact characterisation ----------

  lemma ZeroPreset(e: Bits)
    ensures Dividend(ZERO, e) == e + Zeros(8)
    ensures ToBits(ZERO) == Zeros(8)
  {
    forall i | 0 <= i < 8 ensures ToBits(ZERO)[i] == Zeros(8)[i] {
      BitAtZero(i);
    }
    assert ToBits(ZERO) == Zeros(8);
  }

  lemma BitAtZero(i: nat)
    ensures !BitAt(ZERO, i)
  {
  }

  lemma PlusZeros(a: Bits)
    ensures Xor(a, Zeros(|a|)) == a
  {
  }

  lemma VanishingGivesFactor(e: Bits) returns (p: Bits)
    requires |e| >= 8 && Register(ZERO, e) == ZERO
    ensures |p| == |e| - 8 && Mul(p, GENERATOR) == e
  {
    var q := RegisterDivides(ZERO, e);
    ZeroPreset(e);
    assert Zeros(|q|) + Zeros(8) == Zeros(|q| + 8);
    PlusZeros(Mul(q, GENERATOR));
    p := MultipleOfShift(e, 8, q, GENERATOR);
  }

  lemma MultipleVanishes(e: Bits, p: Bits)
    requires |p| + 8 == |e| && Mul(p, GENERATOR) == e
    ensures Register(ZERO, e) == ZERO
  {
    var q := p + Zeros(8);
    ShiftOfMultiple(p, 8, GENERATOR);
    ZeroPreset(e);
    assert Zeros(|q|) + Zeros(8) == Zeros(|q| + 8);
    PlusZeros(Mul(q, GENERATOR));
    assert Divides(Dividend(ZERO, e), GENERATOR, q, ToBits(ZERO));
    RegisterIsTheRemainder(ZERO, e, ZERO);
  }

  /** An error pattern goes unnoticed exactly when it is a multiple of the generator. */
  lemma UndetectedIffMultiple(f: seq<Octet>, g: seq<Octet>)
    requires |f| == |g| && Accepts(f)
    ensures Accepts(g) <==> exists p: Bits :: |p| == 8 * |f| - 8 && Mul(p, GENERATOR) == ErrorBits(f, g)
  {
    var e := ErrorBits(f, g);
    AcceptsIffPatternVanishes(f, g);
    if Accepts(g) {
      var p := VanishingGivesFactor(e);
    }
    if p: Bits :| |p| == 8 * |f| - 8 && Mul(p, GENERATOR) == e {
      MultipleVanishes(e, p);
    }
  }

  // ---------- odd weight ----------

  predicate Parity(r: Octet) {
    Plus(Plus(Plus(r.b7, r.b6), Plus(r.b5, r.b4)), Plus(Plus(r.b3, r.b2), Plus(r.b1, r.b0)))
  }

  lemma ParityFeed(r: Octet, bit: bool)
    ensures Parity(Feed(r, bit)) == Plus(Parity(r), bit)
  {
  }

  lemma OnesSnoc(e: Bits)
    requires e != []
    ensures var n := |e| - 1;
            Ones(e) == Ones(e[..n]) + if e[n] then {n} else {}
  {
  }

  lemma {:induction false} ParityRegister(e: Bits)
    ensures Parity(Register(ZERO, e)) == (|Ones(e)| % 2 == 1)
  {
    if e == [] {
      assert Ones(e) == {};
    } else {
      var n := |e| - 1;
      ParityRegister(e[..n]);
      ParityFeed(Register(ZERO, e[..n]), e[n]);
      OnesSnoc(e);
    }
  }

  /** Any odd number of flipped bits is noticed, at any length. */
  lemma OddErrorsDetected(f: seq<Octet>, g: seq<Octet>)
    requires |f| == |g| && Accepts(f) && |Diff(f, g)| % 2 == 1
    ensures !Accepts(g)
  {
    AcceptsIffPatternVanishes(f, g);
    ParityRegister(ErrorBits(f, g));
  }

  // ---------- two flips ----------

  lemma {:induction false} Silence(e: Bits)
    requires Ones(e) == {}
    ensures Register(ZERO, e) == ZERO
  {
    if e != [] {
      var n := |e| - 1;
      OnesSnoc(e);
      Silence(e[..n]);
    }
  }

  lemma {:induction false} LoneBit(e: Bits, i: nat)
    requires Ones(e) == {i}
    ensures i < |e| && Register(ZERO, e) == Power(|e| - i)
  {
    assert i in Ones(e);
    var n := |e| - 1;
    OnesSnoc(e);
    if i == n {
      assert n !in Ones(e[..n]);
      assert Ones(e[..n]) == {};
      Silence(e[..n]);
      FirstPower();
    } else {
      assert n !in Ones(e);
      LoneBit(e[..n], i);
      FeedFalse(Power(n - i));
    }
  }

  lemma FirstPower()
    ensures Feed(ZERO, true) == Power(1)
  {
    assert Power(1) == Shift(Power(0));
  }

  lemma FeedFalse(r: Octet)
    ensures Feed(r, false) == Shift(r)
  {
  }

  function Lone(n: nat, i: nat): (e: Bits)
    ensures |e| == n
  {
    seq(n, k => k == i)
  }

  lemma OnesBelow(e: Bits, i: nat)
    requires i in Ones(e)
    ensures i < |e|
  {
  }

  lemma LoneOnes(n: nat, i: nat)
    requires i < n
    ensures Ones(Lone(n, i)) == {i}
  {
  }

  lemma PairSplit(e: Bits, i: nat, j: nat)
    requires Ones(e) == {i, j} && i < j
    ensures e == Xor(Lone(|e|, i), Lone(|e|, j))
  {
    forall k: nat | k < |e| ensures e[k] == Xor(Lone(|e|, i), Lone(|e|, j))[k] {
      assert e[k] <==> k in Ones(e);
    }
  }

  lemma PairRegister(e: Bits, i: nat, j: nat)
    requires Ones(e) == {i, j} && i < j
    ensures j < |e| && Register(ZERO, e) == XorOctet(Power(|e| - i), Power(|e| - j))
  {
    hide *;
    var n := |e|;
    OnesBelow(e, i);
    OnesBelow(e, j);
    LoneOnes(n, i);
    LoneOnes(n, j);
    PairSplit(e, i, j);
    LoneBit(Lone(n, i), i);
    LoneBit(Lone(n, j), j);
    RegisterXor(ZERO, ZERO, Lone(n, i), Lone(n, j));
    XorSelf(ZERO, ZERO);
  }

  lemma PowersCancel(n: nat, i: nat, j: nat)
    requires i < j < n
    ensures XorOctet(Power(n - i), Power(n - j)) == ZERO <==> (j - i) % 127 == 0
  {
    XorSelf(Power(n - i), Power(n - j));
    Order(n - j, n - i);
    assert (n - i) - (n - j) == j - i;
  }

  /** Two flipped bits are noticed exactly when their distance is not a multiple of 127. */
  lemma PairDetectedIff(f: seq<Octet>, g: seq<Octet>, i: nat, j: nat)
    requires |f| == |g| && Accepts(f) && Diff(f, g) == {i, j} && i < j
    ensures Accepts(g) <==> (j - i) % 127 == 0
  {
    hide Accepts, Register, Power, ErrorBits;
    var e := ErrorBits(f, g);
    AcceptsIffPatternVanishes(f, g);
    PairRegister(e, i, j);
    PowersCancel(|e|, i, j);
  }

  // ---------- bursts ----------

  lemma {:induction false} RunOut(r: Octet, e: Bits)
    requires Ones(e) == {}
    ensures Register(r, e) == Shifts(|e|, r)
  {
    if e != [] {
      var n := |e| - 1;
      OnesSnoc(e);
      RunOut(r, e[..n]);
      FeedFalse(Register(r, e[..n]));
    }
  }

  function FromBits(b: Bits): Octet
    requires |b| == 8
  {
    Octet(b[0], b[1], b[2], b[3], b[4], b[5], b[6], b[7])
  }

  lemma FromBitsToBits(b: Bits)
    requires |b| == 8
    ensures ToBits(FromBits(b)) == b
  {
    forall i | 0 <= i < 8 ensures BitAt(FromBits(b), i) == b[i] {
      if i == 0 {} else if i == 1 {} else if i == 2 {} else if i == 3 {}
      else if i == 4 {} else if i == 5 {} else if i == 6 {} else {}
    }
  }

  lemma BurstLeavesResidue(a: Bits, w: Bits, z: Bits)
    requires Ones(a) == {} && Ones(z) == {} && |w| == 8
    ensures Register(ZERO, (a + w) + z) == ZERO ==> FromBits(w) == ZERO
  {
    var o := FromBits(w);
    FromBitsToBits(w);
    Silence(a);
    RegisterConcat(ZERO, a + w, z);
    RegisterConcat(ZERO, a, w);
    RegisterByte(ZERO, o);
    ZeroXor(o);
    RunOut(Register(ZERO, w), z);
    ShiftsInjective(|z|, Register(ZERO, w), ZERO);
    ShiftsInjective(WIDTH, o, ZERO);
  }

  lemma ZeroXor(r: Octet)
    ensures XorOctet(ZERO, r) == r
  {
  }

  lemma BurstRegister(e: Bits, lo: nat)
    requires lo + 8 <= |e| && Ones(e) != {} && forall i :: i in Ones(e) ==> lo <= i < lo + 8
    ensures Register(ZERO, e) != ZERO
  {
    hide Register, FromBits, ToBits;
    var a, w, z := e[..lo], e[lo..lo + 8], e[lo + 8..];
    assert e == (a + w) + z;
    forall k: nat | k < |a| ensures !a[k] { assert k !in Ones(e); }
    forall k: nat | k < |z| ensures !z[k] { assert lo + 8 + k !in Ones(e); }
    assert Ones(a) == {} && Ones(z) == {};
    BurstLeavesResidue(a, w, z);
    var i :| i in Ones(e);
    NonzeroByte(w, i - lo);
  }

  lemma NonzeroByte(w: Bits, i: nat)
    requires |w| == 8 && i < 8 && w[i]
    ensures FromBits(w) != ZERO
  {
    FromBitsToBits(w);
    assert ToBits(FromBits(w))[i];
    BitAtZero(i);
  }

  /** Every burst that fits in eight consecutive bit positions is noticed, at any length. */
  lemma BurstsDetected(f: seq<Octet>, g: seq<Octet>, lo: nat)
    requires |f| == |g| && Accepts(f) && Diff(f, g) != {}
    requires forall i :: i in Diff(f, g) ==> lo <= i < lo + 8
    ensures !Accepts(g)
  {
    var e := ErrorBits(f, g);
    AcceptsIffPatternVanishes(f, g);
    BurstRegister(e, if lo + 8 <= |e| then lo else |e| - 8);
  }

  // ---------- the sensor's frame ----------

  lemma TwoElements(s: set<nat>) returns (i: nat, j: nat)
    requires |s| == 2
    ensures s == {i, j} && i < j
  {
    var a :| a in s;
    var t := s - {a};
    assert |t| == 1;
    var b :| b in t;
    assert t - {b} == {} by { assert |t - {b}| == 0; }
    assert t == {b} && s == {a} + t;
    i, j := if a < b then a else b, if a < b then b else a;
  }

  /** In the sensor's seven-byte frame one, two or three flipped bits never pass. */
  lemma UpToThreeFlipsDetected(f: seq<Octet>, g: seq<Octet>)
    requires |f| == |g| == 7 && Accepts(f) && 1 <= |Diff(f, g)| <= 3
    ensures !Accepts(g)
  {
    if |Diff(f, g)| == 2 {
      var i, j := TwoElements(Diff(f, g));
      assert j in Diff(f, g);
      PairDetectedIff(f, g, i, j);
    } else {
      OddErrorsDetected(f, g);
    }
  }
}
