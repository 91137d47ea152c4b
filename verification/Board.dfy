/** The control board as one state machine: key samples, screen passes, system-thread passes and timer ticks
    in any order, each an atomic step. */
module Board {
  import opened Display
  import opened Pages
  import Keys
  import SysTimer

  const SET_2: nat := 3
  const ENTER_KEY: nat := 1
  const DOWN_KEY: nat := 2
  const MENU_KEY: nat := 4
  const UP_KEY: nat := 8

  // ---------- the menu table ----------

  datatype Row = Row(current: nat, up: nat, down: nat, enter: nat, minPage: nat, maxPage: nat)

  function Table(page: nat): (r: Row)
    requires page < PAGE_COUNT
    ensures r.current == page
    ensures r.up < PAGE_COUNT && r.down < PAGE_COUNT && r.enter < PAGE_COUNT
    ensures r.minPage <= page <= r.maxPage
  {
    if page == WELCOME then Row(WELCOME, WELCOME, WELCOME, MAIN, WELCOME, WELCOME)
    else if page == MAIN then Row(MAIN, MAIN, MAIN, SET_1, MAIN, MAIN)
    else if page == SET_1 then Row(SET_1, SET_2, SET_5, SENSOR_1, SET_1, SET_3)
    else if page == SET_2 then Row(SET_2, SET_3, SET_1, OLED_1, SET_1, SET_3)
    else if page == SET_3 then Row(SET_3, SET_4, SET_2, VISION, SET_1, SET_3)
    else if page == SET_4 then Row(SET_4, SET_5, SET_3, FACTORY_CONFIRM, SET_4, SET_5)
    else if page == SET_5 then Row(SET_5, SET_1, SET_4, PROVISIONING, SET_4, SET_5)
    else if page == SENSOR_1 then Row(SENSOR_1, SENSOR_2, SENSOR_1, SENSOR_CONFIRM, SENSOR_1, SENSOR_3)
    else if page == SENSOR_2 then Row(SENSOR_2, SENSOR_3, SENSOR_2, SENSOR_CONFIRM, SENSOR_1, SENSOR_3)
    else if page == SENSOR_3 then Row(SENSOR_3, SENSOR_1, SENSOR_3, SENSOR_CONFIRM, SENSOR_1, SENSOR_3)
    else if page == OLED_1 then Row(OLED_1, OLED_2, OLED_1, OLED_CONFIRM, OLED_1, OLED_2)
    else if page == OLED_2 then Row(OLED_2, OLED_1, OLED_2, OLED_CONFIRM, OLED_1, OLED_2)
    else if page == VISION then Row(VISION, VISION, VISION, SET_3, VISION, VISION)
    else if page == PROVISIONING then Row(PROVISIONING, PROVISIONING, PROVISIONING, SET_5, PROVISIONING, PROVISIONING)
    else if page == SENSOR_CONFIRM then
      Row(SENSOR_CONFIRM, SENSOR_CONFIRM, SENSOR_CONFIRM, SENSOR_1, SENSOR_CONFIRM, SENSOR_CONFIRM)
    else if page == OLED_CONFIRM then Row(OLED_CONFIRM, OLED_CONFIRM, OLED_CONFIRM, OLED_1, OLED_CONFIRM, OLED_CONFIRM)
    else Row(FACTORY_CONFIRM, FACTORY_CONFIRM, FACTORY_CONFIRM, SET_4, FACTORY_CONFIRM, FACTORY_CONFIRM)
  }

  // ---------- state and steps ----------

  datatype State = State(
    keys: Keys.Scanner,
    timer: SysTimer.Timer,
    current: nat,
    pre: nat,
    keyOn: bool,
    addFlag: bool,
    params: Params,
    screen: Bytes)

  datatype Action = Sample(mask: nat) | Draw | System | Tick

  const NO_PARAMS := Params(0, 0, 0, 0, 0)
  const FACTORY_PARAMS := Params(30, 100, 50, 100, 239)

  function PowerOn(): State {
    State(Keys.INITIAL, SysTimer.ZERO, WELCOME, WELCOME, true, false, NO_PARAMS, Blank(CELLS))
  }

  predicate SensorPageNo(page: nat) {
    SENSOR_1 <= page <= SENSOR_3
  }

  predicate OledPageNo(page: nat) {
    OLED_1 <= page <= OLED_2
  }

  /** A short press of one key. */
  function Dispatch(b: State, key: nat): State
    requires b.current < PAGE_COUNT
  {
    var a := b.(timer := SysTimer.Reset(b.timer), keyOn := true);
    var row := Table(b.current);
    if key == ENTER_KEY then
      a.(params := if b.current == FACTORY_CONFIRM then FACTORY_PARAMS else b.params, current := row.enter)
    else if key == UP_KEY then a.(current := row.up)
    else if key == DOWN_KEY then
      if SensorPageNo(b.current) || OledPageNo(b.current) then a.(addFlag := true) else a.(current := row.down)
    else if key == MENU_KEY then
      a.(params := if SensorPageNo(b.current) || OledPageNo(b.current)
                      || b.current == SENSOR_CONFIRM || b.current == OLED_CONFIRM
                   then NO_PARAMS else b.params,
         current := MAIN)
    else a
  }

  predicate Presses(b: State, mask: nat) {
    var r := Keys.Report(Keys.Scan(b.keys, mask));
    r != [] && r[0].ShortPress?
  }

  function SampleStep(b: State, mask: nat): State
    requires b.current < PAGE_COUNT
  {
    var scanned := Keys.Scan(b.keys, mask);
    var a := b.(keys := Keys.Pass(b.keys, mask));
    if Presses(b, mask) then Dispatch(a, scanned.key) else a
  }

  function Bump(v: nat, limit: nat): nat {
    if v + 1 >= limit then 0 else v + 1
  }

  function Increment(p: Params, page: nat): Params {
    if page == SENSOR_1 then p.(distance := Bump(p.distance, 200))
    else if page == SENSOR_2 then p.(sensitivity := Bump(p.sensitivity, 100))
    else if page == SENSOR_3 then p.(power := Bump(p.power, 200))
    else if page == OLED_1 then p.(light := Bump(p.light, 255))
    else if page == OLED_2 then p.(closeTime := Bump(p.closeTime, 999))
    else p
  }

  function DrawnParams(b: State): Params {
    if b.addFlag then Increment(b.params, b.current) else b.params
  }

  predicate Bounded(p: Params) {
    p.distance < 200 && p.sensitivity < 100 && p.power < 200 && p.light < 255 && p.closeTime < 999
  }

  /** One pass of the screen thread. */
  function DrawStep(f: Fonts, b: State): State
    requires FontsOk(f) && b.current < PAGE_COUNT && Bounded(b.params) && |b.screen| == CELLS
  {
    if !b.keyOn then b
    else
      var base := if SameGroup(b.pre, b.current) then b.screen else Blank(CELLS);
      b.(keyOn := false, pre := b.current,
         addFlag := b.addFlag && !SensorPageNo(b.current) && !OledPageNo(b.current),
         params := DrawnParams(b),
         screen := DrawTiles(base, PageTiles(f, b.current, DrawnParams(b))))
  }

  /** One pass of the system thread. */
  function SystemStep(b: State): State {
    var t := if b.current == WELCOME || b.current == MAIN then SysTimer.Reset(b.timer) else b.timer;
    if t.flagMin then
      b.(timer := SysTimer.TakeFlag(t), keyOn := true, current := MAIN, screen := Blank(CELLS))
    else b.(timer := t)
  }

  function Step(f: Fonts, b: State, a: Action): State
    requires FontsOk(f) && b.current < PAGE_COUNT && Bounded(b.params) && |b.screen| == CELLS
  {
    match a
    case Sample(mask) => SampleStep(b, mask)
    case Draw => DrawStep(f, b)
    case System => SystemStep(b)
    case Tick => b.(timer := SysTimer.Tick(b.timer))
  }

  // ---------- the invariant ----------

  ghost predicate ShowsPage(f: Fonts, screen: Bytes, page: nat)
    requires FontsOk(f) && page < PAGE_COUNT
  {
    exists p: Params :: ParamsFit(p) && screen == Render(f, page, p)
  }

  /** Page numbers name table rows, parameters are in range, timer digits are digits, and the screen is
      blank or shows the page drawn last. */
  ghost predicate Ok(f: Fonts, b: State) {
    && FontsOk(f) && b.current < PAGE_COUNT && b.pre < PAGE_COUNT && Bounded(b.params)
    && SysTimer.Digits(b.timer)
    && |b.screen| == CELLS && (b.screen == Blank(CELLS) || ShowsPage(f, b.screen, b.pre))
  }

  lemma BoundedFit(p: Params)
    requires Bounded(p)
    ensures ParamsFit(p)
  {
  }

  lemma IncrementBounded(p: Params, page: nat)
    requires Bounded(p)
    ensures Bounded(Increment(p, page))
  {
  }

  /** A screen pass shows exactly the picture of (page, parameters) drawn onto a blank screen. */
  lemma DrawRefines(f: Fonts, b: State)
    requires Ok(f, b) && b.keyOn
    ensures var a := DrawStep(f, b);
            && Ok(f, a) && !a.keyOn && a.pre == a.current == b.current
            && ParamsFit(a.params) && a.params == DrawnParams(b)
            && a.screen == Render(f, b.current, a.params)
  {
    hide PageTiles, DrawTiles;
    IncrementBounded(b.params, b.current);
    var q := DrawnParams(b);
    BoundedFit(q);
    if SameGroup(b.pre, b.current) && b.screen != Blank(CELLS) {
      var p: Params :| ParamsFit(p) && b.screen == Render(f, b.pre, p);
      IncrementalEqualsFresh(f, b.pre, p, b.current, q);
    }
  }

  lemma DispatchOk(f: Fonts, b: State, key: nat)
    requires Ok(f, b)
    ensures Ok(f, Dispatch(b, key))
  {
    hide ShowsPage, Table;
  }

  lemma StepOk(f: Fonts, b: State, a: Action)
    requires Ok(f, b)
    ensures Ok(f, Step(f, b, a))
  {
    hide ShowsPage, Table, Keys.Scan, Keys.Report, Keys.Pass, Dispatch;
    match a
    case Sample(mask) => DispatchOk(f, b.(keys := Keys.Pass(b.keys, mask)), Keys.Scan(b.keys, mask).key);
    case Draw => if b.keyOn { DrawRefines(f, b); }
    case System =>
    case Tick => SysTimer.TickDigits(b.timer);
  }

  // ---------- runs ----------

  function Run(f: Fonts, b: State, actions: seq<Action>): (r: State)
    requires FontsOk(f) && Runnable(b)
    ensures Runnable(r)
  {
    if actions == [] then b
    else
      StepRunnable(f, Run(f, b, actions[..|actions| - 1]), actions[|actions| - 1]);
      Step(f, Run(f, b, actions[..|actions| - 1]), actions[|actions| - 1])
  }

  predicate Runnable(b: State) {
    b.current < PAGE_COUNT && Bounded(b.params) && |b.screen| == CELLS
  }

  lemma StepRunnable(f: Fonts, b: State, a: Action)
    requires FontsOk(f) && Runnable(b)
    ensures Runnable(Step(f, b, a))
  {
    hide Keys.Scan, Keys.Report, Keys.Pass;
    if a == Draw && b.keyOn { IncrementBounded(b.params, b.current); }
  }

  lemma {:induction false} RunOk(f: Fonts, b: State, actions: seq<Action>)
    requires Ok(f, b)
    ensures Ok(f, Run(f, b, actions))
  {
    hide Step;
    if actions != [] {
      RunOk(f, b, actions[..|actions| - 1]);
      StepOk(f, Run(f, b, actions[..|actions| - 1]), actions[|actions| - 1]);
    }
  }

  lemma PowerOnOk(f: Fonts)
    requires FontsOk(f)
    ensures Ok(f, PowerOn())
  {
  }

  /** The display memory is exactly the picture of the current page and parameters on a blank screen. */
  predicate ShowsCurrent(f: Fonts, b: State)
    requires FontsOk(f) && b.current < PAGE_COUNT
  {
    ParamsFit(b.params) && b.screen == Render(f, b.current, b.params)
  }

  /** Over every run from power-on of key samples, screen passes, system passes and ticks, every redraw leaves
      the display memory equal to the current page and parameters drawn onto a blank screen. */
  lemma {:induction false} IncrementalRendering(f: Fonts, actions: seq<Action>)
    requires FontsOk(f)
    ensures var b := Run(f, PowerOn(), actions);
            b.keyOn ==> ShowsCurrent(f, DrawStep(f, b))
                        && DrawStep(f, b).current == b.current && DrawStep(f, b).params == DrawnParams(b)
  {
    PowerOnOk(f);
    RunOk(f, PowerOn(), actions);
    var b := Run(f, PowerOn(), actions);
    hide Run;
    if b.keyOn { DrawRefines(f, b); }
  }

  /** When no redraw is requested, the display memory is up to date. */
  predicate Fresh(f: Fonts, b: State)
    requires FontsOk(f) && b.current < PAGE_COUNT
  {
    !b.keyOn ==> ShowsCurrent(f, b)
  }

  lemma DispatchRequests(b: State, key: nat)
    requires b.current < PAGE_COUNT
    ensures Dispatch(b, key).keyOn && Dispatch(b, key).current < PAGE_COUNT
  {
    hide Table;
  }

  lemma StepFresh(f: Fonts, b: State, a: Action)
    requires Ok(f, b) && Fresh(f, b)
    ensures Step(f, b, a).current < PAGE_COUNT && Fresh(f, Step(f, b, a))
  {
    hide Render, Table, Keys.Scan, Keys.Report, Keys.Pass, Dispatch, ShowsPage, ParamsFit;
    match a
    case Sample(mask) => DispatchRequests(b.(keys := Keys.Pass(b.keys, mask)), Keys.Scan(b.keys, mask).key);
    case Draw => if b.keyOn { DrawRefines(f, b); }
    case System =>
    case Tick =>
  }

  lemma {:induction false} RunFresh(f: Fonts, b: State, actions: seq<Action>)
    requires Ok(f, b) && Fresh(f, b)
    ensures Fresh(f, Run(f, b, actions))
  {
    hide Step, Fresh, ShowsPage;
    if actions != [] {
      RunFresh(f, b, actions[..|actions| - 1]);
      RunOk(f, b, actions[..|actions| - 1]);
      StepFresh(f, Run(f, b, actions[..|actions| - 1]), actions[|actions| - 1]);
    }
  }

  /** Over every run, whenever no redraw is requested the display memory shows the current page and parameters, so no
      press, timeout or redraw ever leaves an old picture standing unnoticed. */
  lemma {:induction false} AlwaysFresh(f: Fonts, actions: seq<Action>)
    requires FontsOk(f)
    ensures var b := Run(f, PowerOn(), actions);
            !b.keyOn ==> ShowsCurrent(f, b)
  {
    PowerOnOk(f);
    hide Run, Ok, ShowsCurrent;
    RunFresh(f, PowerOn(), actions);
  }

  /** The four digits shown for a parameter are its decimal digits. */
  predicate ReadsBack(v: nat)
    requires v < 65536
  {
    var d := Digits(v);
    1000 * d[0] + 100 * d[1] + 10 * d[2] + d[3] == v
  }

  /** Over every run the page number names its own table row, the parameters stay in range, and the four
      digits shown for any of them read back as the parameter. */
  lemma {:induction false} MenuInvariant(f: Fonts, actions: seq<Action>)
    requires FontsOk(f)
    ensures var b := Run(f, PowerOn(), actions);
            && b.current < PAGE_COUNT && Table(b.current).current == b.current
            && Bounded(b.params)
            && ReadsBack(b.params.distance) && ReadsBack(b.params.sensitivity) && ReadsBack(b.params.power)
            && ReadsBack(b.params.light) && ReadsBack(b.params.closeTime)
  {
    var b := Run(f, PowerOn(), actions);
    hide Run;
    DigitsDecodeIff(b.params.distance);
    DigitsDecodeIff(b.params.sensitivity);
    DigitsDecodeIff(b.params.power);
    DigitsDecodeIff(b.params.light);
    DigitsDecodeIff(b.params.closeTime);
  }

  // ---------- navigation ----------

  function DispatchAll(b: State, keys: seq<nat>): (r: State)
    requires b.current < PAGE_COUNT
    ensures r.current < PAGE_COUNT
  {
    if keys == [] then b else Dispatch(DispatchAll(b, keys[..|keys| - 1]), keys[|keys| - 1])
  }

  function CountKey(keys: seq<nat>, key: nat): nat {
    if keys == [] then 0 else CountKey(keys[..|keys| - 1], key) + if keys[|keys| - 1] == key then 1 else 0
  }

  predicate UpsAndDowns(keys: seq<nat>) {
    forall i :: 0 <= i < |keys| ==> keys[i] == UP_KEY || keys[i] == DOWN_KEY
  }

  lemma OneMove(b: State, key: nat)
    requires SET_1 <= b.current <= SET_5 && (key == UP_KEY || key == DOWN_KEY)
    ensures var a := Dispatch(b, key);
            SET_1 <= a.current <= SET_5
            && a.current - SET_1 == (b.current - SET_1 + if key == UP_KEY then 1 else -1) % 5
  {
  }

  lemma ModularMove(x: int, d: int, r: int)
    requires r == x % 5
    ensures (r + d) % 5 == (x + d) % 5
  {
  }

  /** Among the settings pages, u UP and d DOWN presses in any order move the selection by (u - d) mod 5. */
  lemma {:induction false} SettingsNavigation(b: State, keys: seq<nat>)
    requires SET_1 <= b.current <= SET_5 && UpsAndDowns(keys)
    ensures var a := DispatchAll(b, keys);
            && SET_1 <= a.current <= SET_5
            && a.current - SET_1 == (b.current - SET_1 + CountKey(keys, UP_KEY) - CountKey(keys, DOWN_KEY)) % 5
  {
    hide DispatchAll, Dispatch, CountKey, UpsAndDowns;
    if keys == [] {
      NoKeys(b);
    } else {
      var front, key := keys[..|keys| - 1], keys[|keys| - 1];
      KeysSnoc(b, keys);
      SettingsNavigation(b, front);
      OneMove(DispatchAll(b, front), key);
      ModularMove(b.current - SET_1 + CountKey(front, UP_KEY) - CountKey(front, DOWN_KEY),
                  if key == UP_KEY then 1 else -1, DispatchAll(b, front).current - SET_1);
    }
  }

  lemma NoKeys(b: State)
    requires SET_1 <= b.current <= SET_5
    ensures DispatchAll(b, []) == b && CountKey([], UP_KEY) == 0 && CountKey([], DOWN_KEY) == 0
    ensures b.current - SET_1 == (b.current - SET_1) % 5
  {
  }

  lemma KeysSnoc(b: State, keys: seq<nat>)
    requires b.current < PAGE_COUNT && keys != [] && UpsAndDowns(keys)
    ensures var front, key := keys[..|keys| - 1], keys[|keys| - 1];
            && UpsAndDowns(front) && (key == UP_KEY || key == DOWN_KEY)
            && DispatchAll(b, keys) == Dispatch(DispatchAll(b, front), key)
            && CountKey(keys, UP_KEY) == CountKey(front, UP_KEY) + (if key == UP_KEY then 1 else 0)
            && CountKey(keys, DOWN_KEY) == CountKey(front, DOWN_KEY) + (if key == DOWN_KEY then 1 else 0)
  {
    hide Dispatch;
  }

  // ---------- idle timeout ----------

  /** No sample of the run completes a short press. */
  predicate NoPress(f: Fonts, b: State, actions: seq<Action>)
    requires FontsOk(f) && Runnable(b)
  {
    actions == [] ||
    (var n := |actions| - 1;
     && NoPress(f, b, actions[..n])
     && (actions[n].Sample? ==> !Presses(Run(f, b, actions[..n]), actions[n].mask)))
  }

  function TickCount(actions: seq<Action>): nat {
    if actions == [] then 0 else TickCount(actions[..|actions| - 1]) + if actions[|actions| - 1] == Tick then 1 else 0
  }

  lemma QuietStep(f: Fonts, b: State, a: Action)
    requires FontsOk(f) && Runnable(b) && (a.Sample? ==> !Presses(b, a.mask)) && a != Tick && a != System
    ensures Step(f, b, a).current == b.current && Step(f, b, a).timer == b.timer
  {
  }

  lemma SystemEffect(b: State)
    requires SysTimer.Digits(b.timer)
    ensures var a := SystemStep(b);
            && SysTimer.Value(a.timer) <= SysTimer.Value(b.timer) && !a.timer.flagMin
            && a.current == (if b.timer.flagMin then MAIN else b.current)
            && (b.current != WELCOME && b.current != MAIN ==> SysTimer.Value(a.timer) == SysTimer.Value(b.timer))
  {
  }

  lemma NothingRun(f: Fonts, b: State)
    requires FontsOk(f) && Runnable(b)
    ensures Run(f, b, []) == b && TickCount([]) == 0
  {
  }

  lemma RunSnoc(f: Fonts, b: State, actions: seq<Action>)
    requires FontsOk(f) && Runnable(b) && actions != []
    ensures var front, x := actions[..|actions| - 1], actions[|actions| - 1];
            var r := Run(f, b, front);
            && Run(f, b, actions) == Step(f, r, x)
            && TickCount(actions) == TickCount(front) + (if x == Tick then 1 else 0)
            && (NoPress(f, b, actions) <==> NoPress(f, b, front) && (x.Sample? ==> !Presses(r, x.mask)))
  {
    hide Step, Presses;
  }

  lemma OkFacts(f: Fonts, b: State)
    requires Ok(f, b)
    ensures FontsOk(f) && Runnable(b) && SysTimer.Digits(b.timer) && SysTimer.Value(b.timer) < SysTimer.MINUTE
    ensures b.timer.min1 == 0 ==> SysTimer.Value(b.timer) <= 999
  {
  }

  lemma TickStep(f: Fonts, b: State)
    requires FontsOk(f) && Runnable(b)
    ensures Step(f, b, Tick) == b.(timer := SysTimer.Tick(b.timer))
    ensures Step(f, b, System) == SystemStep(b)
  {
  }

  /** One step that completes no press, with no flag waiting; a tick must not be the last one. */
  lemma EarlyStep(f: Fonts, b: State, x: Action)
    requires Ok(f, b) && Runnable(b) && !b.timer.flagMin
             && (x == Tick ==> SysTimer.Value(b.timer) < SysTimer.MINUTE - 1)
    requires x.Sample? ==> !Presses(b, x.mask)
    ensures var a := Step(f, b, x);
            && a.current == b.current && !a.timer.flagMin
            && SysTimer.Value(a.timer) <= SysTimer.Value(b.timer) + if x == Tick then 1 else 0
  {
    hide *;
    OkFacts(f, b);
    TickStep(f, b);
    if x == Tick {
      SysTimer.TickValue(b.timer);
    } else if x == System {
      SystemEffect(b);
    } else {
      QuietStep(f, b, x);
    }
  }

  /** After a reset of the minute counter with no flag pending, nothing times out for 59000 ticks without a press. */
  lemma {:induction false} NoEarlyTimeout(f: Fonts, b: State, actions: seq<Action>)
    requires Ok(f, b) && Runnable(b) && b.timer.min1 == 0 && !b.timer.flagMin
    requires NoPress(f, b, actions) && TickCount(actions) <= 59000
    ensures var a := Run(f, b, actions);
            && a.current == b.current && !a.timer.flagMin
            && SysTimer.Value(a.timer) <= 999 + TickCount(actions)
  {
    hide Ok, Runnable, Run, Step, NoPress, TickCount, Presses, SysTimer.Value, SysTimer.Digits;
    OkFacts(f, b);
    if actions == [] {
      NothingRun(f, b);
    } else {
      var front := actions[..|actions| - 1];
      RunSnoc(f, b, actions);
      NoEarlyTimeout(f, b, front);
      RunOk(f, b, front);
      EarlyStep(f, Run(f, b, front), actions[|actions| - 1]);
    }
  }

  /** Timed out, or about to, or as many ticks on as have passed. */
  predicate Idling(b: State, start: State, ticks: nat) {
    || b.current == MAIN
    || (b.current == start.current
        && (b.timer.flagMin || SysTimer.Value(b.timer) == SysTimer.Value(start.timer) + ticks))
  }

  lemma IdleStep(f: Fonts, b: State, x: Action, start: State, ticks: nat)
    requires Ok(f, b) && Runnable(b) && start.current != WELCOME && start.current != MAIN && Idling(b, start, ticks)
    requires x.Sample? ==> !Presses(b, x.mask)
    ensures Idling(Step(f, b, x), start, ticks + if x == Tick then 1 else 0)
  {
    hide SysTimer.Value, SysTimer.Tick, SysTimer.Digits, Step, SystemStep, Presses, Ok, Runnable;
    OkFacts(f, b);
    TickStep(f, b);
    if x == Tick {
      SysTimer.TickValue(b.timer);
    } else if x == System {
      SystemEffect(b);
    } else {
      QuietStep(f, b, x);
    }
  }

  /** Away from the welcome and main pages, 60000 ticks without a press always end on the main page. */
  lemma {:induction false} IdleProgress(f: Fonts, b: State, actions: seq<Action>)
    requires Ok(f, b) && Runnable(b) && b.current != WELCOME && b.current != MAIN && NoPress(f, b, actions)
    ensures Idling(Run(f, b, actions), b, TickCount(actions))
  {
    if actions == [] {
      NothingRun(f, b);
    } else {
      hide *;
      var front := actions[..|actions| - 1];
      OkFacts(f, b);
      RunSnoc(f, b, actions);
      IdleProgress(f, b, front);
      RunOk(f, b, front);
      IdleStep(f, Run(f, b, front), actions[|actions| - 1], b, TickCount(front));
    }
  }

  lemma TimeoutBy(f: Fonts, b: State, actions: seq<Action>)
    requires Ok(f, b) && Runnable(b) && b.current != WELCOME && b.current != MAIN
    requires NoPress(f, b, actions) && TickCount(actions) >= 60000
    ensures SystemStep(Run(f, b, actions)).current == MAIN
  {
    hide Run, NoPress, TickCount, Ok, Runnable, SystemStep, SysTimer.Value;
    OkFacts(f, b);
    IdleProgress(f, b, actions);
    RunOk(f, b, actions);
    OkFacts(f, Run(f, b, actions));
    SystemEffect(Run(f, b, actions));
  }

  /** Where a press leaves any reachable state. */
  lemma AfterPress(f: Fonts, before: seq<Action>, key: nat)
    requires FontsOk(f)
    ensures var b := Dispatch(Run(f, PowerOn(), before), key);
            Ok(f, b) && Runnable(b) && b.timer.min1 == 0
  {
    var r := Run(f, PowerOn(), before);
    var b := Dispatch(r, key);
    assert b.timer.min1 == 0;
    hide *;
    PowerOnOk(f);
    RunOk(f, PowerOn(), before);
    DispatchOk(f, r, key);
    OkFacts(f, b);
  }

  /** From any reachable state, a short press that leads away from the welcome and main pages starts an idle
      period of between 59001 and 60000 ticks: no return to the main page up to 59000, always one by 60000. */
  lemma IdleBounds(f: Fonts, before: seq<Action>, key: nat, after: seq<Action>)
    requires FontsOk(f)
    requires var b := Dispatch(Run(f, PowerOn(), before), key);
             b.current != WELCOME && b.current != MAIN && !b.timer.flagMin && NoPress(f, b, after)
    ensures var b := Dispatch(Run(f, PowerOn(), before), key);
            && (TickCount(after) <= 59000 ==> Run(f, b, after).current == b.current)
            && (TickCount(after) >= 60000 ==> SystemStep(Run(f, b, after)).current == MAIN)
  {
    var b := Dispatch(Run(f, PowerOn(), before), key);
    hide *;
    AfterPress(f, before, key);
    IdleWindow(f, b, after);
  }

  lemma IdleWindow(f: Fonts, b: State, after: seq<Action>)
    requires Ok(f, b) && Runnable(b) && b.timer.min1 == 0 && !b.timer.flagMin
    requires b.current != WELCOME && b.current != MAIN && NoPress(f, b, after)
    ensures TickCount(after) <= 59000 ==> Run(f, b, after).current == b.current
    ensures TickCount(after) >= 60000 ==> SystemStep(Run(f, b, after)).current == MAIN
  {
    hide *;
    if TickCount(after) <= 59000 { NoEarlyTimeout(f, b, after); }
    if TickCount(after) >= 60000 { TimeoutBy(f, b, after); }
  }
}
