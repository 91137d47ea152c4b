/** The cascaded millisecond counters behind the idle timeout. */
module SysTimer {

  datatype Timer = Timer(ms10: nat, ms20: nat, ms100: nat, min1: nat, flag10: bool, flagMin: bool)

  const MINUTE: nat := 60000

  const ZERO := Timer(0, 0, 0, 0, false, false)

  function Tick(t: Timer): Timer {
    if t.ms10 + 1 < 10 then t.(ms10 := t.ms10 + 1)
    else
      var a := t.(ms10 := 0, flag10 := true, ms20 := if t.ms20 + 1 >= 2 then 0 else t.ms20 + 1);
      if t.ms100 + 1 < 100 then a.(ms100 := t.ms100 + 1)
      else if t.min1 + 1 < 60 then a.(ms100 := 0, min1 := t.min1 + 1)
      else a.(ms100 := 0, min1 := 0, flagMin := true)
  }

  /** What key dispatches and the idle pages do: only the top counter goes back to zero. */
  function Reset(t: Timer): Timer {
    t.(min1 := 0)
  }

  /** What the system thread does when it finds the minute flag set. */
  function TakeFlag(t: Timer): Timer {
    t.(flagMin := false)
  }

  datatype Action = TickAction | ResetAction | TakeAction

  function Step(t: Timer, a: Action): Timer {
    match a
    case TickAction => Tick(t)
    case ResetAction => Reset(t)
    case TakeAction => TakeFlag(t)
  }

  function Run(t: Timer, actions: seq<Action>): Timer {
    if actions == [] then t else Step(Run(t, actions[..|actions| - 1]), actions[|actions| - 1])
  }

  // ---------- mixed radix ----------

  predicate Digits(t: Timer) {
    t.ms10 < 10 && t.ms20 < 2 && t.ms100 < 100 && t.min1 < 60
  }

  function Value(t: Timer): nat {
    t.ms10 + 10 * t.ms100 + 1000 * t.min1
  }

  /** Whether the next tick raises the minute flag. */
  predicate Raises(t: Timer) {
    t.ms10 + 1 >= 10 && t.ms100 + 1 >= 100 && t.min1 + 1 >= 60
  }

  lemma TickDigits(t: Timer)
    requires Digits(t)
    ensures Digits(Tick(t))
  {
  }

  lemma TickValue(t: Timer)
    requires Digits(t)
    ensures Digits(Tick(t)) && Value(t) < MINUTE
    ensures Raises(t) <==> Value(t) == MINUTE - 1
    ensures Value(Tick(t)) == if Raises(t) then 0 else Value(t) + 1
    ensures Tick(t).flagMin == (t.flagMin || Raises(t))
  {
  }

  lemma StepKeeps(t: Timer, a: Action)
    requires Digits(t)
    ensures Digits(Step(t, a))
    ensures a == TakeAction ==> Value(Step(t, a)) == Value(t)
  {
    TickValue(t);
  }

  lemma {:induction false} RunDigits(t: Timer, actions: seq<Action>)
    requires Digits(t)
    ensures Digits(Run(t, actions))
  {
    if actions != [] {
      var n := |actions| - 1;
      RunDigits(t, actions[..n]);
      StepKeeps(Run(t, actions[..n]), actions[n]);
    }
  }

  function TickCount(actions: seq<Action>): nat {
    if actions == [] then 0
    else TickCount(actions[..|actions| - 1]) + if actions[|actions| - 1] == TickAction then 1 else 0
  }

  /** How many ticks of a run raise the flag. */
  function RaiseCount(t: Timer, actions: seq<Action>): nat {
    if actions == [] then 0
    else
      var front := actions[..|actions| - 1];
      RaiseCount(t, front) + if actions[|actions| - 1] == TickAction && Raises(Run(t, front)) then 1 else 0
  }

  lemma NextMinute(v: nat)
    ensures (v + 1) % MINUTE == if v % MINUTE == MINUTE - 1 then 0 else v % MINUTE + 1
    ensures (v + 1) / MINUTE == v / MINUTE + if v % MINUTE == MINUTE - 1 then 1 else 0
  {
    var q, r := v / MINUTE, v % MINUTE;
    assert v == MINUTE * q + r;
    if r == MINUTE - 1 { assert v + 1 == MINUTE * (q + 1); } else { assert v + 1 == MINUTE * q + (r + 1); }
  }

  /** Without resets the counters add up the ticks, and the flag is raised exactly at every 60000th value. */
  lemma {:induction false} CountsTicks(t: Timer, actions: seq<Action>)
    requires Digits(t) && ResetAction !in actions
    ensures Value(Run(t, actions)) == (Value(t) + TickCount(actions)) % MINUTE
    ensures RaiseCount(t, actions) == (Value(t) + TickCount(actions)) / MINUTE
  {
    hide *;
    if actions == [] {
      NoTicks(t);
    } else {
      var front, a := actions[..|actions| - 1], actions[|actions| - 1];
      RunSnoc(t, actions);
      CountsTicks(t, front);
      RunDigits(t, front);
      CountStep(Run(t, front), a, Value(t) + TickCount(front));
    }
  }

  lemma NoTicks(t: Timer)
    requires Digits(t)
    ensures Run(t, []) == t && TickCount([]) == 0 && RaiseCount(t, []) == 0
    ensures Value(t) % MINUTE == Value(t) && Value(t) / MINUTE == 0
  {
    TickValue(t);
  }

  lemma RunSnoc(t: Timer, actions: seq<Action>)
    requires actions != []
    ensures var front, a := actions[..|actions| - 1], actions[|actions| - 1];
            && Run(t, actions) == Step(Run(t, front), a)
            && TickCount(actions) == TickCount(front) + (if a == TickAction then 1 else 0)
            && RaiseCount(t, actions) == RaiseCount(t, front)
                 + (if a == TickAction && Raises(Run(t, front)) then 1 else 0)
            && (ResetAction !in actions ==> ResetAction !in front && a != ResetAction)
  {
  }

  /** One step of a timer that stands at v modulo a minute. */
  lemma CountStep(r: Timer, a: Action, v: nat)
    requires Digits(r) && a != ResetAction && Value(r) == v % MINUTE
    ensures var d := if a == TickAction then 1 else 0;
            && Value(Step(r, a)) == (v + d) % MINUTE
            && (v + d) / MINUTE == v / MINUTE + if a == TickAction && Raises(r) then 1 else 0
  {
    TickValue(r);
    StepKeeps(r, a);
    hide Value, Digits, Tick, Raises, TakeFlag;
    NextMinute(v);
  }

  /** From power-on, with no resets: the counters are the mixed-radix digits of the tick count, and the flag
      has been raised once for every 60000 ticks. */
  lemma {:induction false} PowerOnClosedForm(actions: seq<Action>)
    requires ResetAction !in actions
    ensures var t, n := Run(ZERO, actions), TickCount(actions);
            && t.ms10 == n % 10 && t.ms20 == n / 10 % 2 && t.ms100 == n / 10 % 100 && t.min1 == n / 1000 % 60
            && RaiseCount(ZERO, actions) == n / MINUTE
  {
    hide *;
    FromZero(actions);
    TwentiesCount(actions);
    DigitsOfValue(Run(ZERO, actions), TickCount(actions));
    TwentiesDigit(Run(ZERO, actions).ms10, Run(ZERO, actions).ms20, TickCount(actions));
  }

  /** From power-on with no reset and nobody taking a flag: the minute flag is up from the 60000th tick on, and the
      ten-millisecond flag from the tenth. */
  lemma {:induction false} FlagsRise(actions: seq<Action>)
    requires ResetAction !in actions && TakeAction !in actions
    ensures Run(ZERO, actions).flagMin <==> TickCount(actions) >= 60000
    ensures Run(ZERO, actions).flag10 <==> TickCount(actions) >= 10
  {
    if actions != [] {
      var front, a := actions[..|actions| - 1], actions[|actions| - 1];
      RunSnoc(ZERO, actions);
      assert a == TickAction;
      FlagsRise(front);
      FromZero(front);
      DigitsOfValue(Run(ZERO, front), TickCount(front));
      FlagStep(Run(ZERO, front), TickCount(front));
      hide Run, Tick, Value, Digits;
    }
  }

  lemma FlagStep(t: Timer, n: nat)
    requires Digits(t) && Value(t) == n % MINUTE && t.ms10 == n % 10
    requires (t.flagMin <==> n >= 60000) && (t.flag10 <==> n >= 10)
    ensures (Tick(t).flagMin <==> n + 1 >= 60000) && (Tick(t).flag10 <==> n + 1 >= 10)
  {
    hide Tick, Value, Digits, Raises;
    TickValue(t);
    TenStep(t);
    Below(n, 60000);
    Below(n, 10);
  }

  lemma Below(n: nat, m: nat)
    requires m > 0
    ensures n < m ==> n % m == n
    ensures n % m < m
  {
  }

  lemma TenStep(t: Timer)
    requires Digits(t)
    ensures Tick(t).flag10 == (t.flag10 || t.ms10 == 9)
  {
  }

  lemma FromZero(actions: seq<Action>)
    requires ResetAction !in actions
    ensures Digits(Run(ZERO, actions))
    ensures Value(Run(ZERO, actions)) == TickCount(actions) % MINUTE
    ensures RaiseCount(ZERO, actions) == TickCount(actions) / MINUTE
  {
    hide *;
    ZeroValue();
    CountsTicks(ZERO, actions);
    RunDigits(ZERO, actions);
    assert Value(ZERO) + TickCount(actions) == TickCount(actions);
  }

  lemma ZeroValue()
    ensures Digits(ZERO) && Value(ZERO) == 0
  {
  }

  lemma TwentiesDigit(a: nat, b: nat, n: nat)
    requires a < 10 && b < 2 && a + 10 * b == n % 20
    ensures b == n / 10 % 2
  {
    assert n == 20 * (n / 20) + 10 * b + a;
    assert n / 10 == 2 * (n / 20) + b;
  }

  lemma {:induction false} TwentiesCount(actions: seq<Action>)
    requires ResetAction !in actions
    ensures var t, n := Run(ZERO, actions), TickCount(actions);
            t.ms10 + 10 * t.ms20 == n % 20 && t.ms10 < 10 && t.ms20 < 2
  {
    if actions != [] {
      var k := |actions| - 1;
      TwentiesCount(actions[..k]);
      if actions[k] == TickAction { NextTwenty(TickCount(actions[..k])); }
    }
  }

  lemma NextTwenty(v: nat)
    ensures (v + 1) % 20 == if v % 20 == 19 then 0 else v % 20 + 1
  {
  }

  lemma DigitsOfValue(t: Timer, n: nat)
    requires Digits(t) && Value(t) == n % MINUTE
    ensures t.ms10 == n % 10 && t.ms100 == n / 10 % 100 && t.min1 == n / 1000 % 60
  {
    var q := n / MINUTE;
    assert n == 60000 * q + 1000 * t.min1 + 10 * t.ms100 + t.ms10;
    Tens(n, 6000 * q + 100 * t.min1 + t.ms100, t.ms10);
    Hundreds(n / 10, 60 * q + t.min1, t.ms100);
    Thousands(n, 60 * q + t.min1, 10 * t.ms100 + t.ms10);
    Sixties(n / 1000, q, t.min1);
  }

  lemma Tens(n: nat, q: nat, r: nat)
    requires n == 10 * q + r && r < 10
    ensures n / 10 == q && n % 10 == r
  {
  }

  lemma Hundreds(n: nat, q: nat, r: nat)
    requires n == 100 * q + r && r < 100
    ensures n % 100 == r
  {
  }

  lemma Thousands(n: nat, q: nat, r: nat)
    requires n == 1000 * q + r && r < 1000
    ensures n / 1000 == q && n % 1000 == r
  {
  }

  lemma Sixties(n: nat, q: nat, r: nat)
    requires n == 60 * q + r && r < 60
    ensures n % 60 == r
  {
  }

  /** After the last reset, from whatever state the counters were in, the flag is raised no earlier than the
      59001st tick and no later than the 60000th. */
  lemma AfterLastReset(before: seq<Action>, after: seq<Action>)
    requires ResetAction !in after
    ensures var t := Reset(Run(ZERO, before));
            && (TickCount(after) <= 59000 ==> RaiseCount(t, after) == 0)
            && (TickCount(after) >= MINUTE ==> RaiseCount(t, after) >= 1)
            && RaiseCount(t, after) == (Value(Run(ZERO, before)) % 1000 + TickCount(after)) / MINUTE
  {
    hide *;
    var s := Run(ZERO, before);
    ZeroValue();
    RunDigits(ZERO, before);
    ResetValue(s);
    CountsTicks(Reset(s), after);
    WithinMinute(Value(s) % 1000, TickCount(after));
  }

  lemma ResetValue(t: Timer)
    requires Digits(t)
    ensures Digits(Reset(t)) && Value(Reset(t)) == Value(t) % 1000
  {
    Thousands(Value(t), t.min1, 10 * t.ms100 + t.ms10);
  }

  lemma WithinMinute(v: nat, n: nat)
    requires v < 1000
    ensures n <= 59000 ==> (v + n) / MINUTE == 0
    ensures n >= MINUTE ==> (v + n) / MINUTE >= 1
  {
  }

  // ---------- the interrupt handler ----------

  class SysTim {
    var ms10: nat
    var ms20: nat
    var ms100: nat
    var min1: nat
    var flag10: bool
    var flagMin: bool

    ghost function Model(): Timer
      reads this
    {
      Timer(ms10, ms20, ms100, min1, flag10, flagMin)
    }

    constructor ()
      ensures Model() == ZERO
    {
      ms10, ms20, ms100, min1, flag10, flagMin := 0, 0, 0, 0, false, false;
    }

    method TickHandler()
      requires Digits(Model())
      modifies this
      ensures Model() == Tick(old(Model())) && Digits(Model())
    {
      TickDigits(Model());
      ms10 := ms10 + 1;
      if ms10 >= 10 {
        ms10 := 0;
        flag10 := true;
        ms20 := ms20 + 1;
        if ms20 >= 2 { ms20 := 0; }
        ms100 := ms100 + 1;
        if ms100 >= 100 {
          ms100 := 0;
          min1 := min1 + 1;
          if min1 >= 60 {
            min1 := 0;
            flagMin := true;
          }
        }
      }
    }
  }
}
