/** The welcome and main pages never time out: the system thread holds the minute counter down on them. */
module Idle {
  import opened Pages
  import opened Board
  import opened Moves
  import SysTimer

  /** Ticks since the last system pass, or since the start without one. */
  function TicksSince(actions: seq<Action>): nat {
    if actions == [] || actions[|actions| - 1] == System then 0
    else TicksSince(actions[..|actions| - 1]) + if actions[|actions| - 1] == Tick then 1 else 0
  }

  /** The system thread gets its turn at least once every 59000 ticks. */
  predicate Paced(actions: seq<Action>) {
    actions == [] || (Paced(actions[..|actions| - 1]) && TicksSince(actions) <= 59000)
  }

  predicate Home(page: nat) {
    page == WELCOME || page == MAIN
  }

  lemma PacedSnoc(actions: seq<Action>)
    requires actions != []
    ensures var front, a := actions[..|actions| - 1], actions[|actions| - 1];
            && (Paced(actions) <==> Paced(front) && TicksSince(actions) <= 59000)
            && TicksSince(actions) == if a == System then 0 else TicksSince(front) + if a == Tick then 1 else 0
  {
  }

  /** A system pass on these pages, with no flag waiting, takes the minute counter back to zero and nothing else. */
  lemma HomeSystem(b: State)
    requires SysTimer.Digits(b.timer) && Home(b.current) && !b.timer.flagMin
    ensures SystemStep(b) == b.(timer := b.timer.(min1 := 0)) && SysTimer.Value(SystemStep(b).timer) <= 999
  {
  }

  lemma HomeStep(f: Fonts, b: State, a: Action, ticks: nat)
    requires Ok(f, b) && Runnable(b) && Home(b.current) && !b.timer.flagMin
    requires SysTimer.Value(b.timer) <= 999 + ticks && ticks <= 59000
    requires a.Sample? ==> !Presses(b, a.mask)
    requires a == Tick ==> ticks < 59000
    ensures var r := Step(f, b, a);
            && r.current == b.current && !r.timer.flagMin && MovesAt(b, a) in {[], [Redraw]}
            && SysTimer.Value(r.timer) <= 999 + if a == System then 0 else ticks + if a == Tick then 1 else 0
  {
    hide SysTimer.Value, SysTimer.Digits, SysTimer.Tick, Step, SystemStep, Presses, Ok, Runnable;
    OkFacts(f, b);
    TickStep(f, b);
    if a == Tick {
      SysTimer.TickValue(b.timer);
    } else if a == System {
      HomeSystem(b);
    } else {
      QuietStep(f, b, a);
    }
  }

  /** On the welcome or main page, however many ticks pass in all, a run without a press in which the system thread
      gets its turn every 59000 ticks keeps the page, raises no flag and contains no timeout. */
  lemma {:induction false} HomeStays(f: Fonts, b: State, actions: seq<Action>)
    requires Ok(f, b) && Runnable(b) && Home(b.current) && b.timer.min1 == 0 && !b.timer.flagMin
    requires NoPress(f, b, actions) && Paced(actions)
    ensures var r := Run(f, b, actions);
            && r.current == b.current && !r.timer.flagMin
            && SysTimer.Value(r.timer) <= 999 + TicksSince(actions)
    ensures Timeout !in MovesOf(f, b, actions)
  {
    hide Ok, Runnable, Run, Step, NoPress, Presses, SysTimer.Value, SysTimer.Digits, Paced, TicksSince, MovesOf;
    OkFacts(f, b);
    if actions == [] {
      NothingYet(f, b);
    } else {
      var front, a := actions[..|actions| - 1], actions[|actions| - 1];
      Board.RunSnoc(f, b, actions);
      MovesSnoc(f, b, actions);
      PacedSnoc(actions);
      PacedBounds(front);
      HomeStays(f, b, front);
      RunOk(f, b, front);
      HomeStep(f, Run(f, b, front), a, TicksSince(front));
    }
  }

  lemma NothingYet(f: Fonts, b: State)
    requires FontsOk(f) && Runnable(b)
    ensures Run(f, b, []) == b && TicksSince([]) == 0 && MovesOf(f, b, []) == []
  {
  }

  lemma PacedBounds(actions: seq<Action>)
    requires Paced(actions)
    ensures TicksSince(actions) <= 59000
  {
  }

  function Alternating(n: nat): (a: seq<Action>)
    ensures |a| == 2 * n
  {
    if n == 0 then [] else Alternating(n - 1) + [Tick, System]
  }

  lemma {:induction false} AlternatingQuiet(f: Fonts, b: State, n: nat)
    requires FontsOk(f) && Runnable(b)
    ensures NoPress(f, b, Alternating(n)) && Paced(Alternating(n)) && TicksSince(Alternating(n)) == 0
    ensures TickCount(Alternating(n)) == n
  {
    hide Run, Runnable, Presses;
    if n > 0 {
      AlternatingQuiet(f, b, n - 1);
      var front, half := Alternating(n - 1), Alternating(n - 1) + [Tick];
      assert Alternating(n) == half + [System] && half[..|half| - 1] == front;
      assert Alternating(n)[..2 * n - 1] == half;
      assert TicksSince(half) == 1;
    }
  }

  /** From power-on, with no key pressed and a system pass after every tick, the board stays on the welcome page for
      any number of ticks. */
  lemma WelcomeForever(f: Fonts, n: nat)
    requires FontsOk(f)
    ensures TickCount(Alternating(n)) == n && Run(f, PowerOn(), Alternating(n)).current == WELCOME
  {
    PowerOnOk(f);
    hide Run, Ok, NoPress, Paced, Alternating;
    AlternatingQuiet(f, PowerOn(), n);
    HomeStays(f, PowerOn(), Alternating(n));
  }
}
