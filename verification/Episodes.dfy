/** Every stream of key samples, read as a sequence of episodes. What the debouncer reports on any stream is the
    episodes' outcomes, one after another, so the grammar below is a complete account of it. */
module Episodes {
  import opened Keys

  /** How the scanner gets from rest back to rest. */
  datatype Episode =
    | Pause
    | Tap(key: nat)
    | Glitch(key: nat, held: nat, other: nat)
    | Click(key: nat, held: nat, bounces: seq<nat>)
    | Hold(key: nat, after: nat)

  predicate Bouncing(h: seq<nat>) {
    forall i :: 0 <= i < |h| ==> h[i] != 0
  }

  /** A glitch is a key replaced by another one before 102 samples; a click is 2 to 101 samples, a zero, any nonzero
      samples, and the next zero; a hold is 102 samples and one more of any kind. */
  predicate Proper(e: Episode) {
    match e
    case Pause => true
    case Tap(key) => key != 0
    case Glitch(key, held, other) => key != 0 && 1 <= held <= 101 && other != 0 && other != key
    case Click(key, held, bounces) => key != 0 && 2 <= held <= 101 && Bouncing(bounces)
    case Hold(key, _) => key != 0
  }

  function Samples(e: Episode): seq<nat> {
    match e
    case Pause => [0]
    case Tap(key) => [key] + [0]
    case Glitch(key, held, other) => Repeat(key, held) + [other]
    case Click(key, held, bounces) => Repeat(key, held) + [0] + bounces + [0]
    case Hold(key, after) => Repeat(key, 102) + [after]
  }

  function Outcome(e: Episode): seq<Event> {
    match e
    case Click(key, _, _) => [ShortPress(key)]
    case Hold(_, _) => [LongPress]
    case _ => []
  }

  // ---------- one episode ----------

  lemma HeldShort(k: Scanner, key: nat, n: nat)
    requires AtRest(k) && key != 0 && n <= 102
    ensures InCycle(After(k, Repeat(key, n)), key, n) && Events(k, Repeat(key, n)) == []
  {
    hide After, Events, InCycle, AtRest;
    Held(k, key, n);
    assert n % 103 == n && n / 103 == 0;
  }

  /** Where the scanner stands once a confirmed press has met a zero. */
  predicate Closed(k: Scanner, key: nat) {
    k.state == Release && k.action == Short && k.key == key
  }

  lemma CloseStep(k: Scanner, key: nat, n: nat)
    requires key != 0 && 2 <= n <= 101 && InCycle(k, key, n)
    ensures Closed(Pass(k, 0), key) && Report(Scan(k, 0)) == []
  {
  }

  lemma BounceStep(k: Scanner, key: nat, x: nat)
    requires Closed(k, key)
    ensures x != 0 ==> Closed(Pass(k, x), key) && Report(Scan(k, x)) == []
    ensures x == 0 ==> AtRest(Pass(k, x)) && Report(Scan(k, x)) == [ShortPress(key)]
  {
  }

  lemma BreakStep(k: Scanner, key: nat, n: nat, x: nat)
    requires key != 0 && 1 <= n <= 102 && InCycle(k, key, n)
    ensures n <= 101 && x != 0 && x != key ==> AtRest(Pass(k, x)) && Report(Scan(k, x)) == []
    ensures n == 1 && x == 0 ==> AtRest(Pass(k, x)) && Report(Scan(k, x)) == []
    ensures n == 102 ==> AtRest(Pass(k, x)) && Report(Scan(k, x)) == [LongPress]
  {
  }

  /** 2 to 101 samples of a key, a zero, then any nonzero samples: nothing is reported yet. */
  lemma {:induction false} ClosedAfter(k: Scanner, key: nat, n: nat, bounces: seq<nat>)
    requires AtRest(k) && key != 0 && 2 <= n <= 101 && Bouncing(bounces)
    ensures Closed(After(k, Repeat(key, n) + [0] + bounces), key)
    ensures Events(k, Repeat(key, n) + [0] + bounces) == []
  {
    hide After, Events, InCycle, AtRest, Scan, Report, Pass, Closed;
    if bounces == [] {
      HeldShort(k, key, n);
      CloseStep(After(k, Repeat(key, n)), key, n);
      Snoc(k, Repeat(key, n), 0);
      assert Repeat(key, n) + [0] + [] == Repeat(key, n) + [0];
    } else {
      var front, x := bounces[..|bounces| - 1], bounces[|bounces| - 1];
      ClosedAfter(k, key, n, front);
      assert Repeat(key, n) + [0] + bounces == (Repeat(key, n) + [0] + front) + [x];
      BounceStep(After(k, Repeat(key, n) + [0] + front), key, x);
      Snoc(k, Repeat(key, n) + [0] + front, x);
    }
  }

  /** A press whose release bounces: 2 to 101 samples of a key, a zero, any list of nonzero samples and the next zero
      give exactly one short press of that key. */
  lemma {:induction false} ReleaseBounces(k: Scanner, key: nat, n: nat, bounces: seq<nat>)
    requires AtRest(k) && key != 0 && 2 <= n <= 101 && Bouncing(bounces)
    ensures AtRest(After(k, Repeat(key, n) + [0] + bounces + [0]))
    ensures Events(k, Repeat(key, n) + [0] + bounces + [0]) == [ShortPress(key)]
  {
    hide After, Events, AtRest, Scan, Report, Pass, Closed;
    var h := Repeat(key, n) + [0] + bounces;
    ClosedAfter(k, key, n, bounces);
    BounceStep(After(k, h), key, 0);
    Snoc(k, h, 0);
  }

  /** A key replaced by another one before the long press is forgotten, and so is that other sample. */
  lemma {:induction false} PressBroken(k: Scanner, key: nat, n: nat, other: nat)
    requires AtRest(k) && key != 0 && 1 <= n <= 101 && other != 0 && other != key
    ensures AtRest(After(k, Repeat(key, n) + [other])) && Events(k, Repeat(key, n) + [other]) == []
  {
    hide After, Events, AtRest, Scan, Report, Pass, InCycle;
    HeldShort(k, key, n);
    BreakStep(After(k, Repeat(key, n)), key, n, other);
    Snoc(k, Repeat(key, n), other);
  }

  lemma EpisodeDecoded(k: Scanner, e: Episode)
    requires AtRest(k) && Proper(e)
    ensures AtRest(After(k, Samples(e))) && Events(k, Samples(e)) == Outcome(e)
  {
    hide After, Events, AtRest, Scan, Report, Pass, InCycle;
    match e
    case Pause =>
      Idle(k, 1);
      assert Repeat(0, 1) == [0];
    case Tap(key) =>
      assert Repeat(key, 1) == [key];
      HeldShort(k, key, 1);
      BreakStep(After(k, [key]), key, 1, 0);
      Snoc(k, [key], 0);
    case Glitch(key, held, other) => PressBroken(k, key, held, other);
    case Click(key, held, bounces) => ReleaseBounces(k, key, held, bounces);
    case Hold(key, after) =>
      HeldShort(k, key, 102);
      BreakStep(After(k, Repeat(key, 102)), key, 102, after);
      Snoc(k, Repeat(key, 102), after);
  }

  // ---------- whole streams ----------

  function Joined(es: seq<Episode>): seq<nat> {
    if es == [] then [] else Joined(es[..|es| - 1]) + Samples(es[|es| - 1])
  }

  function Outcomes(es: seq<Episode>): seq<Event> {
    if es == [] then [] else Outcomes(es[..|es| - 1]) + Outcome(es[|es| - 1])
  }

  predicate AllProper(es: seq<Episode>) {
    forall i :: 0 <= i < |es| ==> Proper(es[i])
  }

  /** An episode that is not over yet. */
  datatype Tail = Nothing | Down(key: nat, held: nat) | Up(key: nat, held: nat, bounces: seq<nat>)

  predicate ProperTail(t: Tail) {
    match t
    case Nothing => true
    case Down(key, held) => key != 0 && 1 <= held <= 102
    case Up(key, held, bounces) => key != 0 && 2 <= held <= 101 && Bouncing(bounces)
  }

  function TailSamples(t: Tail): seq<nat> {
    match t
    case Nothing => []
    case Down(key, held) => Repeat(key, held)
    case Up(key, held, bounces) => Repeat(key, held) + [0] + bounces
  }

  lemma {:induction false} EpisodesDecoded(k: Scanner, es: seq<Episode>)
    requires AtRest(k) && AllProper(es)
    ensures AtRest(After(k, Joined(es))) && Events(k, Joined(es)) == Outcomes(es)
  {
    if es != [] {
      var front, e := es[..|es| - 1], es[|es| - 1];
      EpisodesDecoded(k, front);
      hide After, Events, AtRest, Samples, Outcome, Proper;
      EpisodeDecoded(After(k, Joined(front)), e);
      Concat(k, Joined(front), Samples(e));
    }
  }

  lemma TailSilent(k: Scanner, t: Tail)
    requires AtRest(k) && ProperTail(t)
    ensures Events(k, TailSamples(t)) == []
  {
    match t
    case Nothing =>
    case Down(key, held) => HeldShort(k, key, held);
    case Up(key, held, bounces) => ClosedAfter(k, key, held, bounces);
  }

  /** One more sample either lengthens the unfinished episode or finishes it. */
  lemma NextSample(t: Tail, x: nat) returns (e: seq<Episode>, t': Tail)
    requires ProperTail(t)
    ensures ProperTail(t') && |e| <= 1 && AllProper(e)
    ensures TailSamples(t) + [x] == Joined(e) + TailSamples(t')
  {
    e, t' := [], Nothing;
    match t
    case Nothing =>
      if x == 0 { e := [Pause]; } else { t' := Down(x, 1); }
    case Down(key, held) =>
      if held == 102 { e := [Hold(key, x)]; }
      else if x == key { t' := Down(key, held + 1); }
      else if x != 0 { e := [Glitch(key, held, x)]; }
      else if held == 1 { e := [Tap(key)]; }
      else { t' := Up(key, held, []); }
    case Up(key, held, bounces) =>
      if x == 0 { e := [Click(key, held, bounces)]; } else { t' := Up(key, held, bounces + [x]); }
    if e != [] {
      assert e[..|e| - 1] == [];
      assert Joined(e) == Samples(e[0]);
    }
  }

  lemma {:induction false} JoinedConcat(a: seq<Episode>, c: seq<Episode>)
    ensures Joined(a + c) == Joined(a) + Joined(c)
  {
    hide Samples;
    if c == [] {
      assert a + c == a;
    } else {
      assert (a + c)[..|a| + |c| - 1] == a + c[..|c| - 1];
      JoinedConcat(a, c[..|c| - 1]);
    }
  }

  lemma NoEpisodes()
    ensures AllProper([]) && ProperTail(Nothing) && Joined([]) + TailSamples(Nothing) == []
  {
  }

  lemma ProperConcat(a: seq<Episode>, c: seq<Episode>)
    requires AllProper(a) && AllProper(c)
    ensures AllProper(a + c)
  {
  }

  lemma Regroup(a: seq<nat>, c: seq<nat>, x: nat, d: seq<nat>, e: seq<nat>)
    requires c + [x] == d + e
    ensures (a + c) + [x] == (a + d) + e
  {
    assert (a + c) + [x] == a + (c + [x]);
    assert (a + d) + e == a + (d + e);
  }

  /** Every stream whatsoever is a sequence of episodes and at most one unfinished one. */
  lemma {:induction false} EveryStreamParses(h: seq<nat>) returns (es: seq<Episode>, t: Tail)
    ensures AllProper(es) && ProperTail(t) && h == Joined(es) + TailSamples(t)
  {
    hide *;
    if h == [] {
      es, t := [], Nothing;
      NoEpisodes();
    } else {
      var front, x := h[..|h| - 1], h[|h| - 1];
      var es0, t0 := EveryStreamParses(front);
      var e;
      e, t := NextSample(t0, x);
      es := es0 + e;
      JoinedConcat(es0, e);
      ProperConcat(es0, e);
      assert h == front + [x];
      Regroup(Joined(es0), TailSamples(t0), x, Joined(e), TailSamples(t));
    }
  }

  /** What the debouncer reports on any stream from rest: the outcomes of its episodes and nothing else. */
  lemma {:induction false} StreamDecoded(k: Scanner, h: seq<nat>) returns (es: seq<Episode>, t: Tail)
    requires AtRest(k)
    ensures AllProper(es) && ProperTail(t) && h == Joined(es) + TailSamples(t)
    ensures Events(k, h) == Outcomes(es)
  {
    es, t := EveryStreamParses(h);
    hide *;
    EpisodesDecoded(k, es);
    TailSilent(After(k, Joined(es)), t);
    Concat(k, Joined(es), TailSamples(t));
    assert Outcomes(es) + [] == Outcomes(es);
  }
}
