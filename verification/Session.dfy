/** What a user at the board's buttons gets: exactly when a key press buys a full idle period, and strokes at the pins
    in rounds between redraws. */
module Session {
  import opened Pages
  import opened Board
  import opened Moves
  import Keys
  import SysTimer

  // ---------- exactly when a press buys a full idle period ----------

  /** No run of up to 59000 ticks without a press leaves the page. */
  ghost predicate StaysFor59000(f: Fonts, b: State)
    requires FontsOk(f) && Runnable(b)
  {
    forall after :: NoPress(f, b, after) && TickCount(after) <= 59000 ==> Run(f, b, after).current == b.current
  }

  /** A press that leads away from the welcome and main pages keeps its page for 59000 ticks exactly when no
      earlier minute flag is still waiting for the system thread. */
  lemma FullPeriodIffNoStaleFlag(f: Fonts, before: seq<Action>, key: nat)
    requires FontsOk(f)
    requires var b := Dispatch(Run(f, PowerOn(), before), key); b.current != WELCOME && b.current != MAIN
    ensures var b := Dispatch(Run(f, PowerOn(), before), key);
            Runnable(b) && (StaysFor59000(f, b) <==> !b.timer.flagMin)
  {
    var r := Run(f, PowerOn(), before);
    AfterPress(f, before, key);
    var b := Dispatch(r, key);
    if b.timer.flagMin {
      OneSystemStep(f, b);
    } else {
      forall after | NoPress(f, b, after) && TickCount(after) <= 59000 ensures Run(f, b, after).current == b.current {
        IdleBounds(f, before, key, after);
      }
    }
  }

  /** With the flag waiting, a single system pass and no tick at all ends the page. */
  lemma OneSystemStep(f: Fonts, b: State)
    requires FontsOk(f) && Runnable(b) && b.current != WELCOME && b.current != MAIN && b.timer.flagMin
    ensures !StaysFor59000(f, b)
  {
    var after := [System];
    assert after[..0] == [];
    assert NoPress(f, b, after[..0]) && TickCount(after[..0]) == 0 && Run(f, b, after[..0]) == b;
    assert NoPress(f, b, after) && TickCount(after) == 0;
    assert Run(f, b, after) == SystemStep(b);
  }

  function Ticks(n: nat): (a: seq<Action>)
    ensures |a| == n
  {
    seq(n, _ => Tick)
  }

  lemma {:induction false} TicksOnly(f: Fonts, b: State, n: nat)
    requires FontsOk(f) && Runnable(b)
    ensures NoPress(f, b, Ticks(n)) && TickCount(Ticks(n)) == n
    ensures Run(f, b, Ticks(n)) == b.(timer := Run(f, b, Ticks(n)).timer)
  {
    hide SysTimer.Tick;
    if n > 0 {
      assert Ticks(n)[..n - 1] == Ticks(n - 1);
      TicksOnly(f, b, n - 1);
    }
  }

  lemma {:induction false} RunConcat(f: Fonts, b: State, a: seq<Action>, c: seq<Action>)
    requires FontsOk(f) && Runnable(b)
    ensures Run(f, b, a + c) == Run(f, Run(f, b, a), c)
  {
    hide Step;
    if c == [] {
      assert a + c == a;
    } else {
      assert (a + c)[..|a| + |c| - 1] == a + c[..|c| - 1];
      RunConcat(f, b, a, c[..|c| - 1]);
    }
  }

  // ---------- strokes in rounds ----------

  /** Two samples down and two up for every key. */
  function Clicks(keys: seq<nat>): (p: seq<Keys.Stroke>)
    ensures |p| == |keys|
  {
    seq(|keys|, i requires 0 <= i < |keys| => Keys.Stroke(keys[i], 2, 2))
  }

  lemma {:induction false} ClicksAreShort(keys: seq<nat>)
    ensures ShortKeys(Clicks(keys)) == keys
  {
    if keys != [] {
      assert Clicks(keys)[..|keys| - 1] == Clicks(keys[..|keys| - 1]);
      ClicksAreShort(keys[..|keys| - 1]);
      assert keys == keys[..|keys| - 1] + [keys[|keys| - 1]];
    }
  }

  function ClickActions(keys: seq<nat>): seq<Action> {
    Sampled(Keys.Strokes(Clicks(keys)))
  }

  /** Strokes and nothing between them. */
  lemma ClicksRun(f: Fonts, b: State, keys: seq<nat>)
    requires FontsOk(f) && Runnable(b) && Keys.AtRest(b.keys) && 0 !in keys
    ensures var r := Run(f, b, ClickActions(keys));
            && Runnable(r) && Keys.AtRest(r.keys) && r.timer.flagMin == b.timer.flagMin
            && MovesOf(f, b, ClickActions(keys)) == Typed(keys) && ViewOf(r) == ApplyAll(ViewOf(b), Typed(keys))
  {
    var h := Keys.Strokes(Clicks(keys));
    hide Keys.Strokes, Run, MovesOf, Masks, KeysIn, ShortKeys, ApplyAll, Sampled, Runnable, Keys.AtRest, Typed;
    MasksSampled(h);
    ClicksAreShort(keys);
    StrokesDriveMenu(f, b, Sampled(h), Clicks(keys));
    SampledMoves(f, b, h);
  }

  /** One round at the pins: strokes, then a screen pass. */
  function RoundActions(keys: seq<nat>): seq<Action> {
    ClickActions(keys) + [Draw]
  }

  lemma RoundRuns(f: Fonts, b: State, keys: seq<nat>)
    requires FontsOk(f) && Runnable(b) && Keys.AtRest(b.keys) && 0 !in keys
    ensures var r := Run(f, b, RoundActions(keys));
            && Runnable(r) && Keys.AtRest(r.keys)
            && ViewOf(r) == Apply(ApplyAll(ViewOf(b), Typed(keys)), Redraw)
  {
    var clicks := ClickActions(keys);
    assert RoundActions(keys)[..|clicks|] == clicks;
    ClicksRun(f, b, keys);
    hide ClickActions, ApplyAll, Apply, Typed;
    DrawMoves(f, Run(f, b, clicks));
  }

  /** Two presses of ENTER open the settings. */
  lemma OpenSettings(f: Fonts) returns (open: seq<Action>)
    requires FontsOk(f)
    ensures Run(f, PowerOn(), open).current == SET_1
  {
    var keys := [ENTER_KEY, ENTER_KEY];
    open := ClickActions(keys);
    ClicksRun(f, PowerOn(), keys);
    hide ClickActions, Run, MovesOf;
    TypedTwo(ViewOf(PowerOn()), ENTER_KEY, ENTER_KEY);
  }

  lemma TypedTwo(v: View, first: nat, second: nat)
    requires v.page < PAGE_COUNT
    ensures ApplyAll(v, Typed([first, second])) == Apply(Apply(v, Key(first)), Key(second))
  {
    hide Apply;
    assert Typed([first, second]) == [Key(first)] + [Key(second)];
    ApplySnoc(v, [Key(first)], Key(second));
    SingleMove(v, Key(first));
  }

  lemma TypedThree(v: View, first: nat, second: nat, third: nat)
    requires v.page < PAGE_COUNT
    ensures ApplyAll(v, Typed([first, second, third])) == Apply(Apply(Apply(v, Key(first)), Key(second)), Key(third))
  {
    hide Apply;
    assert Typed([first, second, third]) == Typed([first, second]) + [Key(third)];
    TypedTwo(v, first, second);
    ApplySnoc(v, Typed([first, second]), Key(third));
  }

  /** Such a flag can be waiting: after a minute in the settings a key press can come before the system thread
      runs, and the very next pass of that thread undoes it. */
  lemma StaleFlagReachable(f: Fonts) returns (before: seq<Action>)
    requires FontsOk(f)
    ensures var b := Dispatch(Run(f, PowerOn(), before), DOWN_KEY);
            b.current == SET_5 && b.timer.flagMin && SystemStep(b).current == MAIN
  {
    var open := OpenSettings(f);
    var s := Run(f, PowerOn(), open);
    before := open + Ticks(SysTimer.MINUTE);
    RunConcat(f, PowerOn(), open, Ticks(SysTimer.MINUTE));
    PowerOnOk(f);
    RunOk(f, PowerOn(), open);
    TicksOnly(f, s, SysTimer.MINUTE);
    FlagAfterMinute(f, s, Ticks(SysTimer.MINUTE));
  }

  lemma FlagAfterMinute(f: Fonts, s: State, ticks: seq<Action>)
    requires Ok(f, s) && s.current != WELCOME && s.current != MAIN
    requires NoPress(f, s, ticks) && TickCount(ticks) == SysTimer.MINUTE
    requires Run(f, s, ticks).current == s.current
    ensures Run(f, s, ticks).timer.flagMin
  {
    IdleProgress(f, s, ticks);
    RunOk(f, s, ticks);
    SysTimer.TickValue(Run(f, s, ticks).timer);
  }
}
