/** What moves the menu in a run of the whole board. Of all the steps only key dispatches, timeouts and screen passes
    change the page, the parameters or what is pending; this module reads them off any run. */
module Moves {
  import opened Pages
  import opened Board
  import Keys

  /** A timeout is a system pass that finds the minute flag set. */
  datatype Move = Key(key: nat) | Timeout | Redraw

  /** The part of the board's state that moves work on; `pending` is the mark a DOWN press leaves. */
  datatype View = View(page: nat, params: Params, pending: bool, keyOn: bool)

  function ViewOf(b: State): View {
    View(b.current, b.params, b.addFlag, b.keyOn)
  }

  predicate ParamPage(page: nat) {
    SensorPageNo(page) || OledPageNo(page)
  }

  function NextPage(page: nat, key: nat): (next: nat)
    requires page < PAGE_COUNT
    ensures next < PAGE_COUNT
  {
    if key == ENTER_KEY then Table(page).enter
    else if key == UP_KEY then Table(page).up
    else if key == DOWN_KEY then if ParamPage(page) then page else Table(page).down
    else if key == MENU_KEY then MAIN
    else page
  }

  /** A key that sets all parameters, whatever they were. */
  predicate Resets(page: nat, key: nat) {
    || (key == ENTER_KEY && page == FACTORY_CONFIRM)
    || (key == MENU_KEY && (ParamPage(page) || page == SENSOR_CONFIRM || page == OLED_CONFIRM))
  }

  function ResetParams(key: nat): Params {
    if key == MENU_KEY then NO_PARAMS else FACTORY_PARAMS
  }

  function Apply(v: View, m: Move): (r: View)
    requires v.page < PAGE_COUNT
    ensures r.page < PAGE_COUNT
  {
    match m
    case Key(key) =>
      View(NextPage(v.page, key),
           if Resets(v.page, key) then ResetParams(key) else v.params,
           v.pending || (key == DOWN_KEY && ParamPage(v.page)),
           true)
    case Timeout => v.(page := MAIN, keyOn := true)
    case Redraw =>
      if !v.keyOn then v
      else View(v.page,
                if v.pending && ParamPage(v.page) then Increment(v.params, v.page) else v.params,
                v.pending && !ParamPage(v.page),
                false)
  }

  function ApplyAll(v: View, ms: seq<Move>): (r: View)
    requires v.page < PAGE_COUNT
    ensures r.page < PAGE_COUNT
  {
    if ms == [] then v else Apply(ApplyAll(v, ms[..|ms| - 1]), ms[|ms| - 1])
  }

  lemma ApplySnoc(v: View, ms: seq<Move>, m: Move)
    requires v.page < PAGE_COUNT
    ensures ApplyAll(v, ms + [m]) == Apply(ApplyAll(v, ms), m)
  {
    hide Apply;
    assert (ms + [m])[..|ms|] == ms;
  }

  lemma {:induction false} ApplyConcat(v: View, a: seq<Move>, c: seq<Move>)
    requires v.page < PAGE_COUNT
    ensures ApplyAll(v, a + c) == ApplyAll(ApplyAll(v, a), c)
  {
    hide Apply;
    if c == [] {
      assert a + c == a;
    } else {
      var front, m := c[..|c| - 1], c[|c| - 1];
      ApplyConcat(v, a, front);
      assert a + c == (a + front) + [m];
      ApplySnoc(v, a + front, m);
    }
  }

  // ---------- the moves of a run ----------

  /** The move a step makes, if any. */
  function MovesAt(b: State, a: Action): (ms: seq<Move>)
    ensures |ms| <= 1
  {
    match a
    case Sample(mask) => if Presses(b, mask) then [Key(Keys.Scan(b.keys, mask).key)] else []
    case Draw => [Redraw]
    case System => if b.timer.flagMin then [Timeout] else []
    case Tick => []
  }

  function MovesOf(f: Fonts, b: State, actions: seq<Action>): seq<Move>
    requires FontsOk(f) && Runnable(b)
  {
    if actions == [] then []
    else
      var front := actions[..|actions| - 1];
      MovesOf(f, b, front) + MovesAt(Run(f, b, front), actions[|actions| - 1])
  }

  /** The masks sampled in a run. */
  function Masks(actions: seq<Action>): seq<nat> {
    if actions == [] then []
    else
      var a := actions[|actions| - 1];
      Masks(actions[..|actions| - 1]) + if a.Sample? then [a.mask] else []
  }

  function KeysIn(ms: seq<Move>): seq<nat> {
    if ms == [] then []
    else KeysIn(ms[..|ms| - 1]) + if ms[|ms| - 1].Key? then [ms[|ms| - 1].key] else []
  }

  function Shorts(es: seq<Keys.Event>): seq<nat> {
    if es == [] then []
    else Shorts(es[..|es| - 1]) + if es[|es| - 1].ShortPress? then [es[|es| - 1].key] else []
  }

  lemma {:induction false} KeysInConcat(a: seq<Move>, c: seq<Move>)
    ensures KeysIn(a + c) == KeysIn(a) + KeysIn(c)
  {
    if c == [] {
      assert a + c == a;
    } else {
      assert (a + c)[..|a| + |c| - 1] == a + c[..|c| - 1];
      KeysInConcat(a, c[..|c| - 1]);
    }
  }

  lemma {:induction false} ShortsConcat(a: seq<Keys.Event>, c: seq<Keys.Event>)
    ensures Shorts(a + c) == Shorts(a) + Shorts(c)
  {
    if c == [] {
      assert a + c == a;
    } else {
      assert (a + c)[..|a| + |c| - 1] == a + c[..|c| - 1];
      ShortsConcat(a, c[..|c| - 1]);
    }
  }

  lemma One<T>(x: T)
    ensures [x][..0] == []
  {
  }

  lemma NoMoves(v: View)
    requires v.page < PAGE_COUNT
    ensures ApplyAll(v, []) == v && KeysIn([]) == []
  {
  }

  lemma SingleMove(v: View, m: Move)
    requires v.page < PAGE_COUNT
    ensures ApplyAll(v, [m]) == Apply(v, m) && KeysIn([m]) == if m.Key? then [m.key] else []
  {
    hide Apply;
    One(m);
    assert [m][..|[m]| - 1] == [];
    assert ApplyAll(v, []) == v && KeysIn([]) == [];
  }

  lemma DispatchMoves(b: State, key: nat, k: Keys.Scanner)
    requires b.current < PAGE_COUNT
    ensures ViewOf(Dispatch(b.(keys := k), key)) == Apply(ViewOf(b), Key(key)) && Dispatch(b.(keys := k), key).keys == k
  {
    hide Table;
  }

  /** A sample moves the menu by what the scanner reports for it. */
  lemma SampleMoves(b: State, mask: nat)
    requires b.current < PAGE_COUNT
    ensures ViewOf(SampleStep(b, mask)) == ApplyAll(ViewOf(b), MovesAt(b, Sample(mask)))
    ensures SampleStep(b, mask).keys == Keys.Pass(b.keys, mask)
    ensures KeysIn(MovesAt(b, Sample(mask))) == Shorts(Keys.Report(Keys.Scan(b.keys, mask)))
  {
    var r := Keys.Report(Keys.Scan(b.keys, mask));
    ReportShorts(Keys.Scan(b.keys, mask));
    hide Keys.Scan, Keys.Report, Keys.Pass, Dispatch, Apply, ApplyAll, KeysIn, Shorts;
    NoMoves(ViewOf(b));
    if Presses(b, mask) {
      var key := Keys.Scan(b.keys, mask).key;
      SingleMove(ViewOf(b), Key(key));
      DispatchMoves(b, key, Keys.Pass(b.keys, mask));
    }
  }

  lemma ReportShorts(k: Keys.Scanner)
    ensures var r := Keys.Report(k);
            Shorts(r) == if r != [] && r[0].ShortPress? then [k.key] else []
  {
    var r := Keys.Report(k);
    if r != [] { assert r[..|r| - 1] == []; }
  }

  lemma DrawMoves(f: Fonts, b: State)
    requires FontsOk(f) && Runnable(b)
    ensures ViewOf(DrawStep(f, b)) == Apply(ViewOf(b), Redraw) && DrawStep(f, b).keys == b.keys
  {
    hide PageTiles, FontsOk;
  }

  lemma SystemMoves(b: State)
    requires b.current < PAGE_COUNT
    ensures ViewOf(SystemStep(b)) == (if b.timer.flagMin then Apply(ViewOf(b), Timeout) else ViewOf(b))
    ensures SystemStep(b).keys == b.keys
  {
  }

  /** Every step changes the view by its move, and the scanner by its sample. */
  lemma StepMoves(f: Fonts, b: State, a: Action)
    requires FontsOk(f) && Runnable(b)
    ensures ViewOf(Step(f, b, a)) == ApplyAll(ViewOf(b), MovesAt(b, a))
    ensures Step(f, b, a).keys == if a.Sample? then Keys.Pass(b.keys, a.mask) else b.keys
    ensures KeysIn(MovesAt(b, a)) == if a.Sample? then Shorts(Keys.Report(Keys.Scan(b.keys, a.mask))) else []
  {
    hide SampleStep, DrawStep, SystemStep, Apply, ApplyAll, KeysIn, Shorts, Presses, Keys.Scan, Keys.Report, Keys.Pass;
    NoMoves(ViewOf(b));
    match a
    case Sample(mask) => SampleMoves(b, mask);
    case Draw => DrawMoves(f, b); SingleMove(ViewOf(b), Redraw);
    case System => SystemMoves(b); SingleMove(ViewOf(b), Timeout);
    case Tick =>
  }

  lemma MovesSnoc(f: Fonts, b: State, actions: seq<Action>)
    requires FontsOk(f) && Runnable(b) && actions != []
    ensures var front, a := actions[..|actions| - 1], actions[|actions| - 1];
            var r := Run(f, b, front);
            && Run(f, b, actions) == Step(f, r, a)
            && MovesOf(f, b, actions) == MovesOf(f, b, front) + MovesAt(r, a)
            && Masks(actions) == Masks(front) + if a.Sample? then [a.mask] else []
  {
    hide Step, MovesAt;
  }

  /** Over every run of samples, screen passes, system passes and ticks: the scanner is a function of the samples
      alone, the keys among the moves are the short presses it reports, in order, and page, parameters and what is
      pending are the moves' outcome. */
  lemma {:induction false} RunIsMoves(f: Fonts, b: State, actions: seq<Action>)
    requires FontsOk(f) && Runnable(b)
    ensures Run(f, b, actions).keys == Keys.After(b.keys, Masks(actions))
    ensures KeysIn(MovesOf(f, b, actions)) == Shorts(Keys.Events(b.keys, Masks(actions)))
    ensures ViewOf(Run(f, b, actions)) == ApplyAll(ViewOf(b), MovesOf(f, b, actions))
  {
    if actions != [] {
      hide *;
      var front, a := actions[..|actions| - 1], actions[|actions| - 1];
      var r := Run(f, b, front);
      RunIsMoves(f, b, front);
      MovesSnoc(f, b, actions);
      StepMoves(f, r, a);
      KeysInConcat(MovesOf(f, b, front), MovesAt(r, a));
      ApplyConcat(ViewOf(b), MovesOf(f, b, front), MovesAt(r, a));
      if a.Sample? {
        Keys.Snoc(b.keys, Masks(front), a.mask);
        ShortsConcat(Keys.Events(b.keys, Masks(front)), Keys.Report(Keys.Scan(r.keys, a.mask)));
      } else {
        assert Masks(front) + [] == Masks(front) && KeysIn(MovesOf(f, b, front)) + [] == KeysIn(MovesOf(f, b, front));
      }
    }
  }

  // ---------- strokes ----------

  /** The keys of the strokes that were neither too short nor cut off by a long press. */
  function ShortKeys(p: seq<Keys.Stroke>): seq<nat> {
    if p == [] then []
    else ShortKeys(p[..|p| - 1])
         + if 2 <= p[|p| - 1].held % 103 <= 101 then [p[|p| - 1].key] else []
  }

  lemma {:induction false} LongsAreNoShorts(n: nat)
    ensures Shorts(Keys.Longs(n)) == []
  {
    if n > 0 {
      assert Keys.Longs(n)[..n - 1] == Keys.Longs(n - 1);
      LongsAreNoShorts(n - 1);
    }
  }

  lemma PressShorts(key: nat, n: nat)
    ensures Shorts(Keys.PressEvents(key, n)) == if 2 <= n % 103 <= 101 then [key] else []
  {
    var longs := Keys.Longs((n + 1) / 103);
    var short := if 2 <= n % 103 <= 101 then [Keys.ShortPress(key)] else [];
    assert Keys.PressEvents(key, n) == longs + short;
    LongsAreNoShorts((n + 1) / 103);
    if short != [] { assert short[..|short| - 1] == []; }
    assert Shorts(short) == if 2 <= n % 103 <= 101 then [key] else [];
    hide *;
    ShortsConcat(longs, short);
  }

  lemma {:induction false} StrokesShorts(p: seq<Keys.Stroke>)
    ensures Shorts(Keys.StrokesEvents(p)) == ShortKeys(p)
  {
    if p != [] {
      var n := |p| - 1;
      StrokesShorts(p[..n]);
      PressShorts(p[n].key, p[n].held);
      hide Shorts, Keys.PressEvents;
      ShortsConcat(Keys.StrokesEvents(p[..n]), Keys.PressEvents(p[n].key, p[n].held));
    }
  }

  /** Any run whose samples are a sequence of strokes, with ticks, screen passes and system passes anywhere between
      them, dispatches exactly the keys of the short presses, in order, and leaves the scanner at rest. */
  lemma StrokesDriveMenu(f: Fonts, b: State, actions: seq<Action>, p: seq<Keys.Stroke>)
    requires FontsOk(f) && Runnable(b) && Keys.AtRest(b.keys)
    requires Masks(actions) == Keys.Strokes(p) && forall s :: s in p ==> s.key != 0 && s.released >= 2
    ensures Keys.AtRest(Run(f, b, actions).keys)
    ensures KeysIn(MovesOf(f, b, actions)) == ShortKeys(p)
    ensures ViewOf(Run(f, b, actions)) == ApplyAll(ViewOf(b), MovesOf(f, b, actions))
  {
    hide *;
    RunIsMoves(f, b, actions);
    Keys.StrokesDecoded(b.keys, p);
    StrokesShorts(p);
  }

  // ---------- samples on their own ----------

  function Sampled(h: seq<nat>): (a: seq<Action>)
    ensures |a| == |h| && forall i :: 0 <= i < |h| ==> a[i] == Sample(h[i])
  {
    seq(|h|, i requires 0 <= i < |h| => Sample(h[i]))
  }

  lemma {:induction false} MasksSampled(h: seq<nat>)
    ensures Masks(Sampled(h)) == h
  {
    if h != [] {
      assert Sampled(h)[..|h| - 1] == Sampled(h[..|h| - 1]);
      MasksSampled(h[..|h| - 1]);
      assert h == h[..|h| - 1] + [h[|h| - 1]];
    }
  }

  function Typed(keys: seq<nat>): (ms: seq<Move>)
    ensures |ms| == |keys|
  {
    seq(|keys|, i requires 0 <= i < |keys| => Key(keys[i]))
  }

  /** Samples alone move the menu by keys alone, and take no minute flag away. */
  lemma {:induction false} SampledMoves(f: Fonts, b: State, h: seq<nat>)
    requires FontsOk(f) && Runnable(b)
    ensures MovesOf(f, b, Sampled(h)) == Typed(KeysIn(MovesOf(f, b, Sampled(h))))
    ensures Run(f, b, Sampled(h)).timer.flagMin == b.timer.flagMin
  {
    if h != [] {
      var n := |h| - 1;
      assert Sampled(h)[..n] == Sampled(h[..n]);
      SampledMoves(f, b, h[..n]);
      MovesSnoc(f, b, Sampled(h));
      var r := Run(f, b, Sampled(h[..n]));
      SampleFlag(r, h[n]);
      TypedSnoc(MovesOf(f, b, Sampled(h[..n])), MovesAt(r, Sample(h[n])));
      hide *;
    }
  }

  lemma SampleFlag(b: State, mask: nat)
    requires b.current < PAGE_COUNT
    ensures SampleStep(b, mask).timer.flagMin == b.timer.flagMin
    ensures MovesAt(b, Sample(mask)) == [] || MovesAt(b, Sample(mask))[0].Key?
  {
    hide Table, Keys.Scan, Keys.Report, Keys.Pass;
  }

  lemma TypedSnoc(ms: seq<Move>, m: seq<Move>)
    requires ms == Typed(KeysIn(ms)) && |m| <= 1 && (m == [] || m[0].Key?)
    ensures ms + m == Typed(KeysIn(ms + m))
  {
    if m == [] {
      assert ms + m == ms;
    } else {
      hide KeysIn;
      assert m == [Key(m[0].key)];
      KeysInConcat(ms, m);
      KeyOf(m[0].key);
      TypedConcat(KeysIn(ms), m[0].key);
    }
  }

  lemma KeyOf(key: nat)
    ensures KeysIn([Key(key)]) == [key]
  {
    One(Key(key));
    assert [Key(key)][..|[Key(key)]| - 1] == [];
  }

  lemma TypedConcat(keys: seq<nat>, key: nat)
    ensures Typed(keys + [key]) == Typed(keys) + [Key(key)]
  {
  }
}
