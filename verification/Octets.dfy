/** Unsigned 8-bit values as their eight bits, with the machine's operators on them, and the
    shift register of the checksum. */
module Octets {
  import opened Gf2

  const WIDTH: nat := 8

  datatype Octet = Octet(b7: bool, b6: bool, b5: bool, b4: bool, b3: bool, b2: bool, b1: bool, b0: bool)

  const ZERO := Octet(false, false, false, false, false, false, false, false)

  function XorOctet(a: Octet, b: Octet): Octet {
    Octet(Plus(a.b7, b.b7), Plus(a.b6, b.b6), Plus(a.b5, b.b5), Plus(a.b4, b.b4),
          Plus(a.b3, b.b3), Plus(a.b2, b.b2), Plus(a.b1, b.b1), Plus(a.b0, b.b0))
  }

  /** C's `<< 1` on a byte: the top bit falls off. */
  function Doubled(b: Octet): Octet {
    Octet(b.b6, b.b5, b.b4, b.b3, b.b2, b.b1, b.b0, false)
  }

  /** Multiply by x and reduce by x^8 + x^5 + x^4 + 1. */
  function Shift(r: Octet): Octet {
    Octet(r.b6, r.b5, Plus(r.b4, r.b7), Plus(r.b3, r.b7), r.b2, r.b1, r.b0, r.b7)
  }

  function Shifts(k: nat, r: Octet): Octet {
    if k == 0 then r else Shift(Shifts(k - 1, r))
  }

  /** Take in one message bit at the top of the register. */
  function Feed(r: Octet, bit: bool): Octet {
    Shift(r.(b7 := Plus(r.b7, bit)))
  }

  lemma FeedXor(r: Octet, s: Octet, b: bool, c: bool)
    ensures Feed(XorOctet(r, s), Plus(b, c)) == XorOctet(Feed(r, b), Feed(s, c))
  {
  }

  lemma ShiftFeed(r: Octet, b: Octet)
    ensures Shift(XorOctet(r, b)) == XorOctet(Feed(r, b.b7), Doubled(b))
  {
  }

  /** Bit number i from the top. */
  function BitAt(b: Octet, i: nat): bool {
    if i == 0 then b.b7 else if i == 1 then b.b6 else if i == 2 then b.b5 else if i == 3 then b.b4
    else if i == 4 then b.b3 else if i == 5 then b.b2 else if i == 6 then b.b1 else if i == 7 then b.b0 else false
  }

  /** The byte after k doublings; bit k of the byte is then on top. */
  function Doublings(k: nat, b: Octet): Octet {
    Octet(BitAt(b, k), BitAt(b, k + 1), BitAt(b, k + 2), BitAt(b, k + 3),
          BitAt(b, k + 4), BitAt(b, k + 5), BitAt(b, k + 6), BitAt(b, k + 7))
  }

  lemma BitAtXor(a: Octet, b: Octet, i: nat)
    ensures BitAt(XorOctet(a, b), i) == Plus(BitAt(a, i), BitAt(b, i))
  {
  }

  lemma BitAtFeed(r: Octet, bit: bool, i: nat)
    requires i < 8
    ensures var c := Plus(r.b7, bit);
            BitAt(Feed(r, bit), i) == if i == 7 then c
              else if i == 2 || i == 3 then Plus(BitAt(r, i + 1), c) else BitAt(r, i + 1)
  {
  }

  lemma SameBits(a: Octet, b: Octet)
    requires forall i :: 0 <= i < 8 ==> BitAt(a, i) == BitAt(b, i)
    ensures a == b
  {
    assert BitAt(a, 0) == BitAt(b, 0) && BitAt(a, 1) == BitAt(b, 1) && BitAt(a, 2) == BitAt(b, 2);
    assert BitAt(a, 3) == BitAt(b, 3) && BitAt(a, 4) == BitAt(b, 4) && BitAt(a, 5) == BitAt(b, 5);
    assert BitAt(a, 6) == BitAt(b, 6) && BitAt(a, 7) == BitAt(b, 7);
  }

  /** Feeding the top k bits of a byte one at a time. */
  function FeedTop(k: nat, r: Octet, b: Octet): Octet {
    if k == 0 then r else Feed(FeedTop(k - 1, r, b), Doublings(k - 1, b).b7)
  }

  lemma DoublingsStep(k: nat, b: Octet)
    ensures Doublings(0, b) == b
    ensures Doublings(k + 1, b) == Doubled(Doublings(k, b))
  {
  }

  lemma {:induction false} FeedTopShifts(k: nat, r: Octet, b: Octet)
    ensures Shifts(k, XorOctet(r, b)) == XorOctet(FeedTop(k, r, b), Doublings(k, b))
  {
    if k == 0 {
      DoublingsStep(0, b);
    } else {
      var j := k - 1;
      FeedTopShifts(j, r, b);
      DoublingsStep(j, b);
      FeedTopStep(FeedTop(j, r, b), Doublings(j, b), FeedTop(k, r, b), Doublings(k, b), Shifts(j, XorOctet(r, b)));
    }
  }

  lemma FeedTopStep(f: Octet, d: Octet, f': Octet, d': Octet, s: Octet)
    requires s == XorOctet(f, d) && f' == Feed(f, d.b7) && d' == Doubled(d)
    ensures Shift(s) == XorOctet(f', d')
  {
    ShiftFeed(f, d);
  }

  lemma XorZero(r: Octet)
    ensures XorOctet(r, ZERO) == r
  {
  }

  lemma {:induction false} ShiftsInjective(k: nat, a: Octet, b: Octet)
    ensures Shifts(k, a) == Shifts(k, b) ==> a == b
    ensures Shifts(k, a) == ZERO <==> a == ZERO
  {
    if k > 0 {
      ShiftsInjective(k - 1, a, b);
    }
  }

  lemma {:induction false} ShiftsAdd(j: nat, k: nat, r: Octet)
    ensures Shifts(j + k, r) == Shifts(j, Shifts(k, r))
  {
    if j > 0 {
      ShiftsAdd(j - 1, k, r);
    }
  }

  // ---------- the multiplicative order of x is 127 ----------

  /** x^(7 + k) reduced: what a lone message bit leaves in the register k steps after it came in at the top. */
  function Power(k: nat): Octet {
    if k == 0 then Octet(true, false, false, false, false, false, false, false) else Shift(Power(k - 1))
  }

  lemma {:induction false} PowerShifts(j: nat, k: nat)
    ensures Power(j + k) == Shifts(j, Power(k))
  {
    if j > 0 {
      PowerShifts(j - 1, k);
    }
  }

  /** Multiplying by x^4 and by x^8, worked out. */
  function TimesFour(r: Octet): Octet {
    Octet(Plus(Plus(r.b7, r.b6), r.b3),
          Plus(Plus(r.b6, r.b5), r.b2),
          Plus(Plus(Plus(r.b7, r.b5), r.b4), r.b1),
          Plus(Plus(r.b7, r.b4), r.b0),
          r.b7, r.b6, r.b5,
          Plus(r.b7, r.b4))
  }

  function TimesEight(r: Octet): Octet {
    Octet(Plus(Plus(r.b5, r.b3), r.b2),
          Plus(Plus(Plus(r.b7, r.b4), r.b2), r.b1),
          Plus(Plus(Plus(Plus(r.b7, r.b6), r.b3), r.b1), r.b0),
          Plus(Plus(Plus(r.b7, r.b6), r.b3), r.b0),
          Plus(Plus(r.b7, r.b6), r.b3),
          Plus(Plus(r.b6, r.b5), r.b2),
          Plus(Plus(Plus(r.b7, r.b5), r.b4), r.b1),
          Plus(Plus(Plus(r.b6, r.b4), r.b3), r.b0))
  }

  lemma ShiftsTimesFour(r: Octet)
    ensures Shift(Shift(Shift(Shift(r)))) == TimesFour(r)
  {
  }

  lemma TimesEightIs(r: Octet)
    ensures TimesFour(TimesFour(r)) == TimesEight(r)
  {
  }

  lemma PowerFour(k: nat)
    ensures Power(k + 4) == TimesFour(Power(k))
  {
    var r := Power(k);
    assert Power(k + 1) == Shift(r) && Power(k + 2) == Shift(Power(k + 1));
    assert Power(k + 3) == Shift(Power(k + 2)) && Power(k + 4) == Shift(Power(k + 3));
    ShiftsTimesFour(r);
  }

  lemma PowerEight(k: nat)
    ensures Power(k + 8) == TimesEight(Power(k))
  {
    PowerFour(k);
    PowerFour(k + 4);
    TimesEightIs(Power(k));
  }

  lemma FullCycle()
    ensures Power(127) == Power(0)
  {
    PowerEight(0); assert Power(8) == Octet(false, true, true, true, true, false, true, false);
    PowerEight(8); assert Power(16) == Octet(false, false, true, false, false, false, true, true);
    PowerEight(16); assert Power(24) == Octet(true, true, false, true, false, true, false, true);
    PowerEight(24); assert Power(32) == Octet(true, true, true, true, false, false, false, true);
    PowerEight(32); assert Power(40) == Octet(true, false, true, true, false, false, true, true);
    PowerEight(40); assert Power(48) == Octet(true, true, true, false, true, true, false, false);
    PowerEight(48); assert Power(56) == Octet(true, false, true, true, true, true, false, false);
    PowerEight(56); assert Power(64) == Octet(true, true, false, false, false, false, true, false);
    PowerEight(64); assert Power(72) == Octet(false, false, true, false, false, true, false, true);
    PowerEight(72); assert Power(80) == Octet(false, true, true, true, false, false, true, true);
    PowerEight(80); assert Power(88) == Octet(true, false, true, false, true, false, true, true);
    PowerEight(88); assert Power(96) == Octet(false, false, false, true, false, true, true, false);
    PowerEight(96); assert Power(104) == Octet(true, true, true, false, false, true, false, true);
    PowerEight(104); assert Power(112) == Octet(false, false, true, true, false, true, false, false);
    PowerEight(112); assert Power(120) == Octet(false, false, false, false, false, false, false, true);
    PowerFour(120); assert Power(124) == Octet(false, false, false, true, false, false, false, false);
    assert Power(125) == Shift(Power(124)) && Power(126) == Shift(Power(125)) && Power(127) == Shift(Power(126));
  }

  /** A period of the powers carries every larger exponent down. */
  lemma {:induction false} PowerMultiple(d: nat, q: nat, r: nat)
    requires Power(d) == Power(0)
    ensures 0 <= q * d && Power(q * d + r) == Power(r)
  {
    if q == 0 {
      assert q * d + r == r;
    } else {
      PowerMultiple(d, q - 1, r);
      var k := (q - 1) * d + r;
      assert q * d + r == k + d;
      PowerShifts(k, d);
      PowerShifts(k, 0);
    }
  }

  lemma PowerPeriod(d: nat, k: nat)
    requires d > 0 && Power(d) == Power(0)
    ensures Power(k) == Power(k % d)
  {
    PowerMultiple(d, k / d, k % d);
    assert k == (k / d) * d + k % d;
  }

  lemma NoFactorOf127(d: int, q: int)
    requires 1 < d < 127
    ensures d * q != 127
  {
    if d <= 11 {
      if d == 2 {} else if d == 3 {} else if d == 4 {} else if d == 5 {} else if d == 6 {}
      else if d == 7 {} else if d == 8 {} else if d == 9 {} else if d == 10 {} else {}
    } else if q <= 0 {
    } else if q <= 10 {
      if q == 1 {} else if q == 2 {} else if q == 3 {} else if q == 4 {} else if q == 5 {}
      else if q == 6 {} else if q == 7 {} else if q == 8 {} else if q == 9 {} else {}
    } else {
      assert d * q >= 12 * q;
    }
  }

  /** Euclid's descent: a shorter period than 127 would end in Power(1) == Power(0). */
  lemma {:induction false} NoShorterPeriod(d: nat)
    requires 0 < d < 127
    ensures Power(d) != Power(0)
  {
    if d == 1 {
      assert Power(1) == Shift(Power(0));
    } else {
      FullCycle();
      NoFactorOf127(d, 127 / d);
      NoShorterPeriod(127 % d);
      if Power(d) == Power(0) { PowerPeriod(d, 127); }
    }
  }

  lemma Order(j: nat, k: nat)
    requires j <= k
    ensures Power(j) == Power(k) <==> (k - j) % 127 == 0
  {
    var d := k - j;
    PowerShifts(j, 0);
    PowerShifts(j, d);
    ShiftsInjective(j, Power(0), Power(d));
    FullCycle();
    PowerPeriod(127, d);
    if d % 127 != 0 { NoShorterPeriod(d % 127); }
  }
}
