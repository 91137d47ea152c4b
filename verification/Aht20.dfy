/** The AHT20 driver: checksum loop, tick-driven measurement schedule, and the fields of a reading.
    The bus is an input: each tick is given the seven bytes a read would return, or `None` when the
    read fails and leaves the buffer as it is (the driver ignores the result code). */
module Aht20 {
  import opened Options
  import opened Octets
  import opened Crc8
  import opened ErrorDetection

  datatype Status = Idle | Measure | Complete

  /** What a tick does to the outside: a command written, a frame requested, a payload handed to the queue. */
  datatype Effect = Trigger(command: seq<Octet>) | Request | Payload(bytes: seq<Octet>)

  datatype Schedule = Schedule(status: Status, cnt: nat)

  const CMD_AC := Octet(true, false, true, false, true, true, false, false)
  const CMD_33 := Octet(false, false, true, true, false, false, true, true)
  const POLY_31 := Octet(false, false, true, true, false, false, false, true)

  /** `(b & 0x98) == 0x18`: not busy, calibrated, and bit 4 as the data sheet's mode requires. */
  predicate StatusGood(b: Octet) {
    !b.b7 && b.b4 && b.b3
  }

  predicate GoodFrame(f: seq<Octet>) {
    |f| == 7 && Accepts(f) && StatusGood(f[0])
  }

  function Value(b: Octet): (v: nat)
    ensures v < 256
  {
    (if b.b7 then 128 else 0) + (if b.b6 then 64 else 0) + (if b.b5 then 32 else 0) + (if b.b4 then 16 else 0) +
    (if b.b3 then 8 else 0) + (if b.b2 then 4 else 0) + (if b.b1 then 2 else 0) + (if b.b0 then 1 else 0)
  }

  /** Bytes 1 to 5 of a frame as one big-endian number. */
  function Reading(f: seq<Octet>): nat
    requires |f| == 7
  {
    (((Value(f[1]) * 256 + Value(f[2])) * 256 + Value(f[3])) * 256 + Value(f[4])) * 256 + Value(f[5])
  }

  const FIELD: nat := 1048576

  // ---------- schedule ----------

  /** Where the machine stands after n ticks from the zeroed state. */
  function At(n: nat): Schedule {
    var k := n % 201;
    Schedule(if k < 2 then Idle else if k < 16 then Measure else Complete, 10 * k)
  }

  /** What tick number n (counted from one) does, given what the bus would answer. */
  function EffectsAt(n: nat, bus: Option<seq<Octet>>): seq<Effect> {
    if n % 201 == 2 then [Trigger([CMD_AC, CMD_33, ZERO])]
    else if n % 201 == 16 then
      [Request] + if bus.Some? && GoodFrame(bus.value) then [Payload(bus.value[..6])] else []
    else []
  }

  /** From one place in the cycle to the next, as the status and the advanced counter decide. */
  lemma NextPlace(n: nat, bus: Option<seq<Octet>>)
    requires n > 0 && BusAnswer(bus)
    ensures var p := At(n - 1);
            var c := p.cnt + 10;
            && (p.status == Idle ==> At(n) == Schedule(if c > 10 then Measure else Idle, c))
            && (p.status == Measure ==> At(n) == Schedule(if c > 150 then Complete else Measure, c))
            && (p.status == Complete ==> At(n) == if c > 2000 then Schedule(Idle, 0) else Schedule(Complete, c))
            && EffectsAt(n, bus)
            == (if p.status == Idle && c > 10 then [Trigger([CMD_AC, CMD_33, ZERO])]
                else if p.status == Measure && c > 150 then
                  [Request] + if bus.Some? && GoodFrame(bus.value) then [Payload(bus.value[..6])] else []
                else [])
            && (n % 201 == 16 <==> p.status == Measure && c > 150)
            && At(n).cnt <= 2000
  {
    hide GoodFrame;
    var k := (n - 1) % 201;
    assert n % 201 == if k == 200 then 0 else k + 1;
  }

  predicate BusAnswer(bus: Option<seq<Octet>>) {
    bus.Some? ==> |bus.value| == 7
  }

  /** Everything n ticks do, tick by tick. */
  function Trace(bus: seq<Option<seq<Octet>>>): seq<Effect> {
    if bus == [] then [] else Trace(bus[..|bus| - 1]) + EffectsAt(|bus|, bus[|bus| - 1])
  }

  datatype Kind = TriggerKind | RequestKind | PayloadKind

  function KindOf(e: Effect): Kind {
    match e
    case Trigger(_) => TriggerKind
    case Request => RequestKind
    case Payload(_) => PayloadKind
  }

  function Count(t: seq<Effect>, k: Kind): nat {
    if t == [] then 0 else Count(t[..|t| - 1], k) + if KindOf(t[|t| - 1]) == k then 1 else 0
  }

  lemma {:induction false} CountConcat(s: seq<Effect>, t: seq<Effect>, k: Kind)
    ensures Count(s + t, k) == Count(s, k) + Count(t, k)
  {
    if t == [] {
      assert s + t == s;
    } else {
      assert (s + t)[..|s| + |t| - 1] == s + t[..|t| - 1];
      CountConcat(s, t[..|t| - 1], k);
    }
  }

  /** The ticks (counted from zero) whose read brought in a good frame. */
  function GoodReads(bus: seq<Option<seq<Octet>>>): set<nat> {
    set i: nat | i < |bus| && GoodReadAt(bus, i)
  }

  predicate GoodReadAt(bus: seq<Option<seq<Octet>>>, i: nat)
    requires i < |bus|
  {
    (i + 1) % 201 == 16 && bus[i].Some? && GoodFrame(bus[i].value)
  }

  /** Triggers, reads and payloads of a whole run: one trigger per cycle, one read fourteen ticks after it,
      and a payload for exactly those reads that returned a good frame. */
  lemma {:induction false} TraceCounts(bus: seq<Option<seq<Octet>>>)
    ensures Count(Trace(bus), TriggerKind) == (|bus| + 199) / 201
    ensures Count(Trace(bus), RequestKind) == (|bus| + 185) / 201
    ensures Count(Trace(bus), PayloadKind) == |GoodReads(bus)|
  {
    if bus != [] {
      var n := |bus| - 1;
      TraceCounts(bus[..n]);
      var t, e := Trace(bus[..n]), EffectsAt(n + 1, bus[n]);
      CountConcat(t, e, TriggerKind);
      CountConcat(t, e, RequestKind);
      CountConcat(t, e, PayloadKind);
      CycleCounts(n);
      EffectCount(n, bus[n], TriggerKind);
      EffectCount(n, bus[n], RequestKind);
      EffectCount(n, bus[n], PayloadKind);
      GoodReadsSnoc(bus);
    }
  }

  lemma SameRead(bus: seq<Option<seq<Octet>>>, i: nat)
    requires i < |bus| - 1
    ensures GoodReadAt(bus[..|bus| - 1], i) == GoodReadAt(bus, i)
  {
    hide GoodFrame;
  }

  lemma GoodReadsSnoc(bus: seq<Option<seq<Octet>>>)
    requires bus != []
    ensures var n := |bus| - 1;
            |GoodReads(bus)| == |GoodReads(bus[..n])| +
              if (n + 1) % 201 == 16 && bus[n].Some? && GoodFrame(bus[n].value) then 1 else 0
  {
    hide GoodFrame;
    var n := |bus| - 1;
    forall i: nat | i < n ensures GoodReadAt(bus[..n], i) == GoodReadAt(bus, i) {
      SameRead(bus, i);
    }
    assert GoodReadAt(bus, n) <==> (n + 1) % 201 == 16 && bus[n].Some? && GoodFrame(bus[n].value);
    hide GoodReadAt;
    assert GoodReads(bus) == GoodReads(bus[..n]) + if GoodReadAt(bus, n) then {n} else {};
  }

  lemma CountOne(e: Effect, k: Kind)
    ensures Count([e], k) == if KindOf(e) == k then 1 else 0
  {
    assert [e][..0] == [];
  }

  lemma EffectCount(n: nat, bus: Option<seq<Octet>>, k: Kind)
    ensures Count(EffectsAt(n + 1, bus), k)
         == match k
            case TriggerKind => if (n + 1) % 201 == 2 then 1 else 0
            case RequestKind => if (n + 1) % 201 == 16 then 1 else 0
            case PayloadKind => if (n + 1) % 201 == 16 && bus.Some? && GoodFrame(bus.value) then 1 else 0
  {
    if (n + 1) % 201 == 2 {
      CountOne(Trigger([CMD_AC, CMD_33, ZERO]), k);
    } else if (n + 1) % 201 == 16 {
      var tail := if bus.Some? && GoodFrame(bus.value) then [Payload(bus.value[..6])] else [];
      CountConcat([Request], tail, k);
      CountOne(Request, k);
      if tail != [] { CountOne(tail[0], k); }
    }
  }

  lemma NextQuotient(m: nat)
    ensures (m + 1) / 201 == m / 201 + if (m + 1) % 201 == 0 then 1 else 0
  {
  }

  lemma Residue(m: nat, c: nat)
    requires c < 201
    ensures (m + 201 - c) % 201 == 0 <==> m % 201 == c
  {
    var q, r := m / 201, m % 201;
    if r >= c {
      assert m + 201 - c == 201 * (q + 1) + (r - c);
    } else {
      assert m + 201 - c == 201 * q + (r - c + 201);
    }
  }

  lemma CycleCounts(n: nat)
    ensures (n + 200) / 201 == (n + 199) / 201 + if (n + 1) % 201 == 2 then 1 else 0
    ensures (n + 186) / 201 == (n + 185) / 201 + if (n + 1) % 201 == 16 then 1 else 0
  {
    NextQuotient(n + 199);
    NextQuotient(n + 185);
    Residue(n + 1, 2);
    Residue(n + 1, 16);
  }

  lemma SplitNibble(high: nat, c: nat, low: nat)
    requires c < 256 && low < 65536
    ensures var total := (high * 256 + c) * 65536 + low;
            && total / FIELD == (high * 256 + c) / 16
            && total % FIELD == c % 16 * 65536 + low
  {
    var h, l := c / 16, c % 16;
    assert c == h * 16 + l;
    assert (high * 256 + c) / 16 == high * 16 + h;
    assert (high * 256 + c) * 65536 + low == (high * 16 + h) * FIELD + (l * 65536 + low);
  }

  /** The two 20-bit fields split the five data bytes without loss or overlap. */
  lemma FieldsPartition(f: seq<Octet>)
    requires |f| == 7
    ensures var humidity := (Value(f[1]) * 65536 + Value(f[2]) * 256 + Value(f[3])) / 16;
            var temperature := Value(f[3]) % 16 * 65536 + Value(f[4]) * 256 + Value(f[5]);
            && humidity == Reading(f) / FIELD && temperature == Reading(f) % FIELD
  {
    SplitNibble(Value(f[1]) * 256 + Value(f[2]), Value(f[3]), Value(f[4]) * 256 + Value(f[5]));
  }

  /** A frame damaged in one to three bits is never turned into a reading. */
  lemma DamagedFrameRejected(f: seq<Octet>, g: seq<Octet>)
    requires |f| == |g| == 7 && GoodFrame(f) && 1 <= |Diff(f, g)| <= 3
    ensures !GoodFrame(g)
  {
    UpToThreeFlipsDetected(f, g);
  }

  // ---------- the driver ----------

  // ---------- the tests on the status byte ----------

  /** C's `&` on bytes. */
  function And(a: Octet, b: Octet): Octet {
    Octet(a.b7 && b.b7, a.b6 && b.b6, a.b5 && b.b5, a.b4 && b.b4,
          a.b3 && b.b3, a.b2 && b.b2, a.b1 && b.b1, a.b0 && b.b0)
  }

  /** The value of a byte: zero and one, doubling, and the low bit added, which is all there is to binary numbers. */
  lemma ValueLaws(b: Octet)
    ensures Value(ZERO) == 0
    ensures Value(Doubled(b)) == 2 * Value(b) % 256
    ensures !b.b0 ==> Value(b.(b0 := true)) == Value(b) + 1
  {
    assert Value(Doubled(b)) == 2 * Value(b) - if b.b7 then 256 else 0;
  }

  lemma ValueInjective(a: Octet, b: Octet)
    requires Value(a) == Value(b)
    ensures a == b
  {
  }

  /** The status byte is good exactly when its bits under the mask 0x98 read 0x18. */
  lemma StatusIsMasked(b: Octet, mask: Octet, good: Octet)
    requires Value(mask) == 0x98 && Value(good) == 0x18
    ensures StatusGood(b) <==> And(b, mask) == good
  {
    var m := Octet(true, false, false, true, true, false, false, false);
    var g := Octet(false, false, false, true, true, false, false, false);
    assert Value(m) == 0x98 && Value(g) == 0x18;
    ValueInjective(mask, m);
    ValueInjective(good, g);
  }

  predicate HandsOn(effects: seq<Effect>) {
    exists i :: 0 <= i < |effects| && effects[i].Payload?
  }

  /** A tick hands a payload on exactly when it is the sixteenth of its cycle, the read succeeds, the checksum of the
      first six bytes is the seventh, and the status byte passes the mask; the payload is then those six bytes. */
  lemma PayloadIff(n: nat, bus: Option<seq<Octet>>, mask: Octet, good: Octet)
    requires BusAnswer(bus) && Value(mask) == 0x98 && Value(good) == 0x18
    ensures HandsOn(EffectsAt(n, bus)) <==>
            n % 201 == 16 && bus.Some? && Crc(bus.value[..6]) == bus.value[6] && And(bus.value[0], mask) == good
    ensures HandsOn(EffectsAt(n, bus)) ==> EffectsAt(n, bus) == [Request, Payload(bus.value[..6])]
  {
    if bus.Some? { StatusIsMasked(bus.value[0], mask, good); }
    hide Crc, StatusGood, And, Value;
    var e := EffectsAt(n, bus);
    assert n % 201 == 16 && bus.Some? && GoodFrame(bus.value) ==> |e| == 2 && e[1] == Payload(bus.value[..6]);
  }

  /** The only command ever written is AC 33 00. */
  lemma TriggerBytes(n: nat, bus: Option<seq<Octet>>, e: Effect)
    requires BusAnswer(bus) && e in EffectsAt(n, bus) && e.Trigger?
    ensures |e.command| == 3 && n % 201 == 2
    ensures Value(e.command[0]) == 0xAC && Value(e.command[1]) == 0x33 && Value(e.command[2]) == 0
  {
    hide GoodFrame;
  }

  /** The bytes of a reading, most significant first. */
  lemma ReadingBytes(f: seq<Octet>)
    requires |f| == 7
    ensures Reading(f) % 256 == Value(f[5]) && Reading(f) / 256 % 256 == Value(f[4])
    ensures Reading(f) / 65536 % 256 == Value(f[3]) && Reading(f) / 16777216 % 256 == Value(f[2])
    ensures Reading(f) / 4294967296 == Value(f[1])
  {
    hide Value;
    var a, b, c, d, e := Value(f[1]), Value(f[2]), Value(f[3]), Value(f[4]), Value(f[5]);
    LowByte(((a * 256 + b) * 256 + c) * 256 + d, e);
    LowByte((a * 256 + b) * 256 + c, d);
    LowByte(a * 256 + b, c);
    LowByte(a, b);
    Quotients(Reading(f));
  }

  lemma LowByte(high: nat, low: nat)
    requires low < 256
    ensures (high * 256 + low) % 256 == low && (high * 256 + low) / 256 == high
  {
  }

  lemma Quotients(v: nat)
    ensures v / 256 / 256 == v / 65536 && v / 65536 / 256 == v / 16777216 && v / 16777216 / 256 == v / 4294967296
  {
  }

  /** The register starts at 0xFF, and the checksum of the bytes BE EF is 92, the sensor family's published example. */
  lemma KnownChecksums(b: Octet, e: Octet)
    requires Value(b) == 0xBE && Value(e) == 0xEF
    ensures Value(Crc([])) == 0xFF && Value(Crc([b, e])) == 0x92
  {
    var b' := Octet(true, false, true, true, true, true, true, false);
    var e' := Octet(true, true, true, false, true, true, true, true);
    assert Value(b') == 0xBE && Value(e') == 0xEF;
    ValueInjective(b, b');
    ValueInjective(e, e');
    EmptyChecksum();
    CrcSnoc([], b);
    assert [] + [b] == [b];
    CrcSnoc([b], e);
    assert [b] + [e] == [b, e];
    EightShifts(XorOctet(PRESET, b));
    EightShifts(XorOctet(Crc([b]), e));
  }

  lemma EmptyChecksum()
    ensures Crc([]) == PRESET
  {
  }

  lemma EightShifts(x: Octet)
    ensures Shifts(WIDTH, x) == Shift(Shift(Shift(Shift(Shift(Shift(Shift(Shift(x))))))))
  {
    assert Shifts(1, x) == Shift(x);
    assert Shifts(2, x) == Shift(Shifts(1, x));
    assert Shifts(4, x) == Shift(Shift(Shifts(2, x)));
    assert Shifts(6, x) == Shift(Shift(Shifts(4, x)));
  }

  lemma ShiftIsDriverStep(r: Octet)
    ensures Shift(r) == if r.b7 then XorOctet(Doubled(r), POLY_31) else Doubled(r)
  {
  }

  method CheckCrc8(data: array<Octet>, length: nat) returns (crc: Octet)
    requires length <= data.Length && length < 256
    ensures crc == Crc(data[..length])
  {
    crc := PRESET;
    var pdat := 0;
    var i := 0;
    while i < length
      invariant 0 <= i <= length && pdat == i
      invariant crc == Crc(data[..i])
    {
      crc := XorOctet(crc, data[pdat]);
      ghost var mixed := crc;
      var j := 0;
      while j < 8
        invariant 0 <= j <= 8
        invariant crc == Shifts(j, mixed)
      {
        ShiftIsDriverStep(crc);
        if crc.b7 {
          crc := XorOctet(Doubled(crc), POLY_31);
        } else {
          crc := Doubled(crc);
        }
        j := j + 1;
      }
      CrcSnoc(data[..i], data[i]);
      assert data[..i + 1] == data[..i] + [data[i]];
      pdat := pdat + 1;
      i := i + 1;
    }
  }

  class Sensor {
    var cnt: nat
    var status: Status
    const dataBuf: array<Octet>
    var humidity: nat      // the 20-bit raw fields, before scaling to a percentage and to degrees
    var temperature: nat
    ghost var ticks: nat

    ghost predicate Valid()
      reads this, dataBuf
    {
      && dataBuf.Length == 10
      && Schedule(status, cnt) == At(ticks)
      && (status == Measure ==> dataBuf[0] == CMD_AC)
    }

    constructor ()
      ensures Valid() && ticks == 0 && fresh(dataBuf)
    {
      cnt, status, humidity, temperature, ticks := 0, Idle, 0, 0, 0;
      dataBuf := new Octet[10](_ => ZERO);
    }

    /** One turn of the thread loop: advance the counter by ten, then let the handler act. */
    method Tick(bus: Option<seq<Octet>>) returns (effects: seq<Effect>)
      requires Valid() && BusAnswer(bus)
      modifies this, dataBuf
      ensures Valid() && ticks == old(ticks) + 1
      ensures cnt <= 2000
      ensures effects == EffectsAt(ticks, bus)
      ensures if ticks % 201 == 16 && bus.Some? && GoodFrame(bus.value)
              then humidity * FIELD + temperature == Reading(bus.value) && temperature < FIELD
              else humidity == old(humidity) && temperature == old(temperature)
    {
      ghost var n := ticks;
      cnt := cnt + 10;
      assert cnt < 65536;
      ticks := ticks + 1;
      effects := Handle(bus);
    }

    method Handle(bus: Option<seq<Octet>>) returns (effects: seq<Effect>)
      requires BusAnswer(bus) && dataBuf.Length == 10 && ticks > 0
      requires status == At(ticks - 1).status && cnt == At(ticks - 1).cnt + 10
      requires status == Measure ==> dataBuf[0] == CMD_AC
      modifies `cnt, `status, `humidity, `temperature, dataBuf
      ensures Valid()
      ensures cnt <= 2000
      ensures effects == EffectsAt(ticks, bus)
      ensures if ticks % 201 == 16 && bus.Some? && GoodFrame(bus.value)
              then humidity * FIELD + temperature == Reading(bus.value) && temperature < FIELD
              else humidity == old(humidity) && temperature == old(temperature)
    {
      hide GoodFrame, Reading, StatusGood, At, EffectsAt;
      NextPlace(ticks, bus);
      effects := [];
      match status
      case Idle =>
        if cnt > 10 {
          status := Measure;
          dataBuf[0] := CMD_AC;
          dataBuf[1] := CMD_33;
          dataBuf[2] := ZERO;
          assert dataBuf[..3] == [CMD_AC, CMD_33, ZERO];
          effects := [Trigger(dataBuf[..3])];
        }
      case Measure =>
        if cnt > 150 {
          status := Complete;
          effects := ReadFrame(bus);
        }
      case Complete =>
        if cnt > 2000 {
          status := Idle;
          cnt := 0;
        }
    }

    method ReadFrame(bus: Option<seq<Octet>>) returns (effects: seq<Effect>)
      requires BusAnswer(bus) && dataBuf.Length == 10 && dataBuf[0] == CMD_AC
      modifies `humidity, `temperature, dataBuf
      ensures effects == [Request] + if bus.Some? && GoodFrame(bus.value) then [Payload(bus.value[..6])] else []
      ensures if bus.Some? && GoodFrame(bus.value)
              then humidity * FIELD + temperature == Reading(bus.value) && temperature < FIELD
              else humidity == old(humidity) && temperature == old(temperature)
    {
      if bus.Some? {
        forall i | 0 <= i < 7 { dataBuf[i] := bus.value[i]; }
      }
      effects := [Request];
      ghost var f := dataBuf[..7];
      assert bus.Some? ==> f == bus.value;
      var crc := CheckCrc8(dataBuf, 6);
      assert f[..6] == dataBuf[..6];
      if crc == dataBuf[6] && StatusGood(dataBuf[0]) {
        humidity := (Value(dataBuf[1]) * 65536 + Value(dataBuf[2]) * 256 + Value(dataBuf[3])) / 16;
        temperature := Value(dataBuf[3]) % 16 * 65536 + Value(dataBuf[4]) * 256 + Value(dataBuf[5]);
        FieldsPartition(f);
        effects := effects + [Payload(dataBuf[..6])];
      }
    }
  }
}
