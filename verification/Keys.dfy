/** The key debouncer: one sample of the four buttons every pass, as a bit mask. */
module Keys {

  datatype ScanState = Check | Confirm | Release
  datatype Action = NoAction | Short | Long

  /** The static variables of the scanner together with the shared `key_op`. */
  datatype Scanner = Scanner(state: ScanState, action: Action, timeCnt: nat, locked: bool, key: nat)

  datatype Event = ShortPress(key: nat) | LongPress

  const LONG_COUNT: nat := 100

  const INITIAL := Scanner(Check, NoAction, 0, false, 0)

  /** One call of the scanner with the sampled mask. */
  function Scan(k: Scanner, sample: nat): Scanner {
    match k.state
    case Check =>
      var fresh' := k.(timeCnt := 0, locked := false);
      if sample != 0 then fresh'.(state := Confirm, key := sample) else fresh'
    case Confirm =>
      if sample == k.key && sample != 0 then
        if k.timeCnt + 1 > LONG_COUNT then k.(state := Release, action := Long, timeCnt := 0, locked := false)
        else k.(locked := true, timeCnt := k.timeCnt + 1)
      else if sample != 0 then k.(state := Check)
      else if k.locked then k.(state := Release, action := Short)
      else k.(state := Check)
    case Release =>
      if sample == 0 || k.action == Long then k.(state := Check) else k
  }

  /** What one pass of the key thread reports. */
  function Report(k: Scanner): seq<Event> {
    if k.state != Check then []
    else match k.action
      case Short => [ShortPress(k.key)]
      case Long => [LongPress]
      case NoAction => []
  }

  /** One pass: scan, and once back in the check state act on the pending action and clear it. */
  function Pass(k: Scanner, sample: nat): Scanner {
    var scanned := Scan(k, sample);
    if scanned.state == Check then scanned.(action := NoAction) else scanned
  }

  function After(k: Scanner, samples: seq<nat>): Scanner {
    if samples == [] then k else Pass(After(k, samples[..|samples| - 1]), samples[|samples| - 1])
  }

  function Events(k: Scanner, samples: seq<nat>): seq<Event> {
    if samples == [] then []
    else
      var front := samples[..|samples| - 1];
      Events(k, front) + Report(Scan(After(k, front), samples[|samples| - 1]))
  }

  lemma Snoc(k: Scanner, samples: seq<nat>, x: nat)
    ensures After(k, samples + [x]) == Pass(After(k, samples), x)
    ensures Events(k, samples + [x]) == Events(k, samples) + Report(Scan(After(k, samples), x))
  {
    assert (samples + [x])[..|samples|] == samples;
  }

  lemma {:induction false} Concat(k: Scanner, a: seq<nat>, b: seq<nat>)
    ensures After(k, a + b) == After(After(k, a), b)
    ensures Events(k, a + b) == Events(k, a) + Events(After(k, a), b)
  {
    hide Pass, Report, Scan;
    if b == [] {
      assert a + b == a;
    } else {
      var n := |b| - 1;
      var front, x := b[..n], b[n];
      assert b == front + [x] && a + b == (a + front) + [x];
      Concat(k, a, front);
      Snoc(k, a + front, x);
      Snoc(After(k, a), front, x);
    }
  }

  // ---------- one press of any length ----------

  predicate AtRest(k: Scanner) {
    k.state == Check && k.action == NoAction
  }

  function Repeat(x: nat, n: nat): (s: seq<nat>)
    ensures |s| == n && forall i :: 0 <= i < n ==> s[i] == x
  {
    seq(n, _ => x)
  }

  function Longs(n: nat): (s: seq<Event>)
    ensures |s| == n
  {
    seq(n, _ => LongPress)
  }

  /** Where the scanner stands r samples into a cycle of 103 with the key held. */
  predicate InCycle(k: Scanner, key: nat, r: nat) {
    if r == 0 then AtRest(k)
    else if r <= 101 then
      k.state == Confirm && k.action == NoAction && k.key == key && k.timeCnt == r - 1 && k.locked == (r >= 2)
    else k.state == Release && k.action == Long
  }

  lemma CycleStep(k: Scanner, key: nat, r: nat)
    requires key != 0 && r < 103 && InCycle(k, key, r)
    ensures InCycle(Pass(k, key), key, if r == 102 then 0 else r + 1)
    ensures Report(Scan(k, key)) == if r == 102 then [LongPress] else []
  {
  }

  lemma NextCycle(n: nat)
    ensures (n + 1) % 103 == if n % 103 == 102 then 0 else n % 103 + 1
    ensures (n + 1) / 103 == n / 103 + if n % 103 == 102 then 1 else 0
  {
    var q, r := n / 103, n % 103;
    assert n == 103 * q + r;
    if r == 102 { assert n + 1 == 103 * (q + 1); } else { assert n + 1 == 103 * q + (r + 1); }
  }

  lemma {:induction false} Held(k: Scanner, key: nat, n: nat)
    requires AtRest(k) && key != 0
    ensures InCycle(After(k, Repeat(key, n)), key, n % 103)
    ensures Events(k, Repeat(key, n)) == Longs(n / 103)
  {
    if n > 0 {
      var m := n - 1;
      Held(k, key, m);
      hide Scan, Report, Pass, InCycle;
      assert Repeat(key, n) == Repeat(key, m) + [key];
      Snoc(k, Repeat(key, m), key);
      CycleStep(After(k, Repeat(key, m)), key, m % 103);
      NextCycle(m);
      assert Longs(m / 103) + [LongPress] == Longs(m / 103 + 1);
    }
  }

  lemma {:induction false} Idle(k: Scanner, z: nat)
    requires AtRest(k)
    ensures AtRest(After(k, Repeat(0, z))) && Events(k, Repeat(0, z)) == []
  {
    if z > 0 {
      Idle(k, z - 1);
      assert Repeat(0, z) == Repeat(0, z - 1) + [0];
      Snoc(k, Repeat(0, z - 1), 0);
    }
  }

  /** Two zero samples close a press, whatever part of the cycle it stopped in. */
  lemma Released(k: Scanner, key: nat, r: nat)
    requires key != 0 && r < 103 && InCycle(k, key, r)
    ensures AtRest(After(k, [0, 0]))
    ensures Events(k, [0, 0]) == if r == 102 then [LongPress] else if r >= 2 then [ShortPress(key)] else []
  {
    assert [] + [0] == [0] && [0] + [0] == [0, 0];
    Snoc(k, [], 0);
    Snoc(k, [0], 0);
  }

  function PressEvents(key: nat, n: nat): seq<Event> {
    Longs((n + 1) / 103) + if 2 <= n % 103 <= 101 then [ShortPress(key)] else []
  }

  function Press(key: nat, n: nat, z: nat): seq<nat> {
    Repeat(key, n) + Repeat(0, z)
  }

  /** From rest, a key held for n samples and then released for at least two: floor((n + 1) / 103) long
      actions, then one short dispatch of that key when 2 <= n mod 103 <= 101 and none otherwise. */
  lemma PressClosedForm(k: Scanner, key: nat, n: nat, z: nat)
    requires AtRest(k) && key != 0 && z >= 2
    ensures AtRest(After(k, Press(key, n, z)))
    ensures Events(k, Press(key, n, z)) == PressEvents(key, n)
  {
    hide Scan, Report, Pass, InCycle, After, Events, AtRest;
    var held := Repeat(key, n);
    var k1 := After(k, held);
    Held(k, key, n);
    var k2 := After(k1, [0, 0]);
    Released(k1, key, n % 103);
    Idle(k2, z - 2);
    assert Repeat(0, z) == [0, 0] + Repeat(0, z - 2);
    Concat(k1, [0, 0], Repeat(0, z - 2));
    Concat(k, held, Repeat(0, z));
    NextCycle(n);
    assert Longs(n / 103) + [LongPress] == Longs(n / 103 + 1);
    assert Longs(n / 103 + 1) + [] == Longs(n / 103 + 1);
  }

  datatype Stroke = Stroke(key: nat, held: nat, released: nat)

  function Strokes(p: seq<Stroke>): seq<nat> {
    if p == [] then [] else Strokes(p[..|p| - 1]) + Press(p[|p| - 1].key, p[|p| - 1].held, p[|p| - 1].released)
  }

  function StrokesEvents(p: seq<Stroke>): seq<Event> {
    if p == [] then [] else StrokesEvents(p[..|p| - 1]) + PressEvents(p[|p| - 1].key, p[|p| - 1].held)
  }

  /** Any sequence of such presses is decoded press by press. */
  lemma {:induction false} StrokesDecoded(k: Scanner, p: seq<Stroke>)
    requires AtRest(k) && forall s :: s in p ==> s.key != 0 && s.released >= 2
    ensures AtRest(After(k, Strokes(p))) && Events(k, Strokes(p)) == StrokesEvents(p)
  {
    if p != [] {
      var n := |p| - 1;
      StrokesDecoded(k, p[..n]);
      hide After, Events, AtRest, Press, PressEvents;
      PressClosedForm(After(k, Strokes(p[..n])), p[n].key, p[n].held, p[n].released);
      Concat(k, Strokes(p[..n]), Press(p[n].key, p[n].held, p[n].released));
    }
  }

  // ---------- arbitrary sample streams ----------

  predicate AllAre(h: seq<nat>, from: nat, to: nat, x: nat) {
    to <= |h| && forall i :: from <= i < to ==> h[i] == x
  }

  /** A run of 2 to 101 samples equal to `key` in h[a..b], closed by a zero at b, and no zero since. */
  predicate ClosedRun(h: seq<nat>, key: nat, a: nat, b: nat) {
    && key != 0 && 2 <= b - a <= LONG_COUNT + 1 && b < |h|
    && AllAre(h, a, b, key) && h[b] == 0 && (forall i :: b < i < |h| ==> h[i] != 0)
  }

  /** What the history must look like for the scanner to be where it is. */
  ghost predicate Explained(h: seq<nat>, k: Scanner) {
    match k.state
    case Check => k.action == NoAction
    case Confirm =>
      && k.action == NoAction && k.key != 0 && k.timeCnt <= LONG_COUNT && k.locked == (k.timeCnt > 0)
      && k.timeCnt < |h| && AllAre(h, |h| - 1 - k.timeCnt, |h|, k.key)
    case Release =>
      && (k.action == Short ==> exists a: nat, b: nat :: ClosedRun(h, k.key, a, b))
      && (k.action == Long ==> LONG_COUNT + 2 <= |h| && k.key != 0 && AllAre(h, |h| - LONG_COUNT - 2, |h|, k.key))
      && k.action != NoAction
  }

  lemma ExplainedStep(h: seq<nat>, k: Scanner, x: nat)
    requires Explained(h, k)
    ensures Explained(h + [x], Pass(k, x))
  {
    var h' := h + [x];
    assert forall i :: 0 <= i < |h| ==> h'[i] == h[i];
    if k.state == Confirm && x == 0 && k.locked {
      assert ClosedRun(h', k.key, |h| - 1 - k.timeCnt, |h|);
    } else if k.state == Release && k.action == Short && x != 0 {
      var a: nat, b: nat :| ClosedRun(h, k.key, a, b);
      assert ClosedRun(h', k.key, a, b);
    }
  }

  lemma {:induction false} AlwaysExplained(h: seq<nat>)
    ensures Explained(h, After(INITIAL, h))
  {
    if h != [] {
      var n := |h| - 1;
      AlwaysExplained(h[..n]);
      ExplainedStep(h[..n], After(INITIAL, h[..n]), h[n]);
      assert h == h[..n] + [h[n]];
    }
  }

  /** Whatever the samples, the counter stays within its bound and the lock means a confirmed sample. */
  lemma {:induction false} ScannerBounds(h: seq<nat>)
    ensures var k := After(INITIAL, h);
            k.timeCnt <= LONG_COUNT && (k.state == Confirm ==> k.locked == (k.timeCnt > 0))
  {
    AlwaysExplained(h);
    if h != [] {
      ScannerBounds(h[..|h| - 1]);
      AlwaysExplained(h[..|h| - 1]);
    }
  }

  /** A dispatched short press of a key is always justified: earlier, 2 to 101 consecutive samples were that
      key, closed by a zero; no sample since then was zero until the one that triggered the dispatch. */
  lemma ShortPressJustified(h: seq<nat>, x: nat, key: nat)
    requires Report(Scan(After(INITIAL, h), x)) == [ShortPress(key)]
    ensures x == 0 && exists a: nat, b: nat :: ClosedRun(h, key, a, b)
  {
    AlwaysExplained(h);
  }

  /** A long action is always justified by 102 consecutive equal samples. */
  lemma LongPressJustified(h: seq<nat>, x: nat)
    requires Report(Scan(After(INITIAL, h), x)) == [LongPress]
    ensures |h| >= 102 && h[|h| - 1] != 0 && AllAre(h, |h| - 102, |h|, h[|h| - 1])
  {
    AlwaysExplained(h);
  }

  predicate NoRepeats(h: seq<nat>) {
    forall i :: 0 < i < |h| && h[i] != 0 ==> h[i - 1] != h[i]
  }

  lemma EventNeedsRepeat(h: seq<nat>, x: nat)
    requires Report(Scan(After(INITIAL, h), x)) != []
    ensures !NoRepeats(h)
  {
    var e := Report(Scan(After(INITIAL, h), x))[0];
    if e.ShortPress? {
      assert Report(Scan(After(INITIAL, h), x)) == [ShortPress(e.key)];
      ShortPressJustified(h, x, e.key);
      var a: nat, b: nat :| ClosedRun(h, e.key, a, b);
      assert h[a] == e.key && h[a + 1] == e.key;
    } else {
      assert Report(Scan(After(INITIAL, h), x)) == [LongPress];
      LongPressJustified(h, x);
      var n := |h|;
      assert h[n - 2] == h[n - 1];
    }
  }

  /** Bouncing alone never produces an action. */
  lemma {:induction false} NoRepeatsNoEvents(h: seq<nat>)
    requires NoRepeats(h)
    ensures Events(INITIAL, h) == []
  {
    if h != [] {
      var n := |h| - 1;
      assert NoRepeats(h[..n]);
      NoRepeatsNoEvents(h[..n]);
      if Report(Scan(After(INITIAL, h[..n]), h[n])) != [] { EventNeedsRepeat(h[..n], h[n]); }
    }
  }

  // ---------- the code ----------

  function MaskOf(levels: seq<bool>): nat {
    if levels == [] then 0 else MaskOf(levels[..|levels| - 1]) + if levels[|levels| - 1] then Bit(|levels| - 1) else 0
  }

  function Bit(i: nat): (b: nat)
    ensures b > 0
  {
    if i == 0 then 1 else 2 * Bit(i - 1)
  }

  class KeyPad {
    var state: ScanState
    var action: Action
    var timeCnt: nat
    var locked: bool
    var currentKeyBit: nat

    ghost function Model(): Scanner
      reads this
    {
      Scanner(state, action, timeCnt, locked, currentKeyBit)
    }

    constructor ()
      ensures Model() == INITIAL
    {
      state, action, timeCnt, locked, currentKeyBit := Check, NoAction, 0, false, 0;
    }

    /** Gather the pins into a mask: later pins only add higher bits. */
    method ReadPins(levels: seq<bool>) returns (keyBit: nat)
      ensures keyBit == MaskOf(levels)
    {
      keyBit := 0;
      var i, weight := 0, 1;
      while i < |levels|
        invariant 0 <= i <= |levels| && weight == Bit(i) && keyBit == MaskOf(levels[..i])
      {
        assert levels[..i + 1][..i] == levels[..i];
        if levels[i] { keyBit := keyBit + weight; }
        weight := 2 * weight;
        i := i + 1;
      }
      assert levels[..|levels|] == levels;
    }

    method KeyScan(keyBit: nat)
      modifies this
      ensures Model() == Scan(old(Model()), keyBit)
    {
      match state
      case Check =>
        if keyBit != 0 {
          state := Confirm;
          currentKeyBit := keyBit;
        }
        timeCnt := 0;
        locked := false;
      case Confirm =>
        if keyBit != 0 {
          if keyBit == currentKeyBit {
            locked := true;
            timeCnt := timeCnt + 1;
            if timeCnt > LONG_COUNT {
              action := Long;
              timeCnt := 0;
              locked := false;
              state := Release;
            }
          } else {
            state := Check;
          }
        } else if locked {
          action := Short;
          state := Release;
        } else {
          state := Check;
        }
      case Release =>
        if keyBit == 0 || action == Long {
          state := Check;
        }
    }

    /** One pass of the key thread; `events` is what it dispatches. */
    method KeyStatus(keyBit: nat) returns (events: seq<Event>)
      modifies this
      ensures Model() == Pass(old(Model()), keyBit)
      ensures events == Report(Scan(old(Model()), keyBit))
    {
      KeyScan(keyBit);
      events := [];
      if state == Check {
        if action == Short {
          events := [ShortPress(currentKeyBit)];
          action := NoAction;
        } else if action == Long {
          events := [LongPress];
          action := NoAction;
        }
      }
    }
  }
}
