/** What becomes of DOWN presses on the parameter pages. A press only marks an increment as pending; the next
    redraw of a parameter page carries it out, once, on the page it draws. */
module Increments {
  import opened Pages
  import opened Board
  import opened Moves
  import Keys
  import Session
  import SysTimer

  // ---------- where moves lead ----------

  function PageAfter(page: nat, ms: seq<Move>): (last: nat)
    requires page < PAGE_COUNT
    ensures last < PAGE_COUNT
  {
    if ms == [] then page
    else
      var at := PageAfter(page, ms[..|ms| - 1]);
      match ms[|ms| - 1]
      case Key(key) => NextPage(at, key)
      case Timeout => MAIN
      case Redraw => at
  }

  predicate IsPress(page: nat, m: Move) {
    m == Key(DOWN_KEY) && ParamPage(page)
  }

  predicate IsReset(page: nat, m: Move) {
    m.Key? && Resets(page, m.key)
  }

  /** Some DOWN press happens on a parameter page. */
  predicate Marks(page: nat, ms: seq<Move>)
    requires page < PAGE_COUNT
  {
    ms != [] && (Marks(page, ms[..|ms| - 1]) || IsPress(PageAfter(page, ms[..|ms| - 1]), ms[|ms| - 1]))
  }

  /** The parameters as the keys that set all of them have left them. */
  function Settled(page: nat, params: Params, ms: seq<Move>): Params
    requires page < PAGE_COUNT
  {
    if ms == [] then params
    else if IsReset(PageAfter(page, ms[..|ms| - 1]), ms[|ms| - 1]) then ResetParams(ms[|ms| - 1].key)
    else Settled(page, params, ms[..|ms| - 1])
  }

  lemma {:induction false} PageFollows(v: View, ms: seq<Move>)
    requires v.page < PAGE_COUNT
    ensures ApplyAll(v, ms).page == PageAfter(v.page, ms)
  {
    if ms != [] {
      PageFollows(v, ms[..|ms| - 1]);
      hide NextPage, Resets, ResetParams;
    }
  }

  /** Between redraws a mark, once made, stays, and parameters change only by the keys that set them all. */
  lemma {:induction false} NoRedraw(v: View, ms: seq<Move>)
    requires v.page < PAGE_COUNT && Redraw !in ms
    ensures var w := ApplyAll(v, ms);
            && w.pending == (v.pending || Marks(v.page, ms))
            && w.params == Settled(v.page, v.params, ms)
            && w.keyOn == (v.keyOn || ms != [])
  {
    if ms != [] {
      NoRedraw(v, ms[..|ms| - 1]);
      PageFollows(v, ms[..|ms| - 1]);
      hide NextPage, Resets, ResetParams, ParamPage;
    }
  }

  // ---------- one redraw ----------

  lemma {:induction false} NoDrawNoRedraw(f: Fonts, b: State, actions: seq<Action>)
    requires FontsOk(f) && Runnable(b) && Draw !in actions
    ensures Redraw !in MovesOf(f, b, actions)
  {
    if actions != [] {
      NoDrawNoRedraw(f, b, actions[..|actions| - 1]);
      MovesSnoc(f, b, actions);
      hide Run, MovesOf, Presses, Step, FontsOk, Runnable;
    }
  }

  /** After any steps without a screen pass, keys, timeouts and all, with an earlier press pending or not: the redraw
      shows the page the moves lead to; if a press is pending and that is a parameter page, exactly that page's
      parameter goes up by one and the mark is gone; on any other page the parameters stay and so does the mark. */
  lemma {:induction false} IncrementAtRedraw(f: Fonts, b: State, actions: seq<Action>)
    requires FontsOk(f) && Runnable(b) && Draw !in actions && Run(f, b, actions).keyOn
    ensures var r, ms := Run(f, b, actions), MovesOf(f, b, actions);
            var d, marked := Run(f, b, actions + [Draw]), b.addFlag || Marks(b.current, ms);
            && d.current == PageAfter(b.current, ms) && r.params == Settled(b.current, b.params, ms)
            && d.params == (if marked && ParamPage(d.current) then Increment(r.params, d.current) else r.params)
            && d.addFlag == (marked && !ParamPage(d.current)) && !d.keyOn
  {
    var r, v, ms := Run(f, b, actions), ViewOf(b), MovesOf(f, b, actions);
    hide Run, DrawStep, MovesOf, ApplyAll, PageAfter, Marks, Settled, Increment, ParamPage, FontsOk, Runnable;
    RunIsMoves(f, b, actions);
    NoDrawNoRedraw(f, b, actions);
    NoRedraw(v, ms);
    PageFollows(v, ms);
    DrawLast(f, b, actions);
    DrawMoves(f, r);
  }

  lemma DrawLast(f: Fonts, b: State, actions: seq<Action>)
    requires FontsOk(f) && Runnable(b)
    ensures Run(f, b, actions + [Draw]) == DrawStep(f, Run(f, b, actions))
  {
    hide DrawStep;
    assert (actions + [Draw])[..|actions|] == actions;
  }

  predicate ParamGroup(first: nat, len: nat) {
    (first == SENSOR_1 && len == 3) || (first == OLED_1 && len == 2)
  }

  /** The n-th of `len` menu entries, counted round and round. */
  function Wrap(n: nat, len: nat): nat
    requires len > 0
  {
    n % len
  }

  lemma ModularStep(x: nat, d: nat, len: nat, r: nat)
    requires (len == 2 || len == 3) && r == Wrap(x, len)
    ensures Wrap(r + d, len) == Wrap(x + d, len)
  {
    if len == 2 { assert (r + d) % 2 == (x + d) % 2; } else { assert (r + d) % 3 == (x + d) % 3; }
  }

  lemma GroupMove(page: nat, key: nat, first: nat, len: nat)
    requires ParamGroup(first, len) && first <= page < first + len && (key == UP_KEY || key == DOWN_KEY)
    ensures var next := NextPage(page, key);
            first <= next < first + len && next - first == Wrap(page - first + if key == UP_KEY then 1 else 0, len)
  {
  }

  lemma GroupPages(page: nat, first: nat, len: nat)
    requires ParamGroup(first, len) && first <= page < first + len
    ensures ParamPage(page) && page < PAGE_COUNT && (len == 2 || len == 3)
  {
  }

  lemma NoMove(page: nat, first: nat, len: nat)
    requires ParamGroup(first, len) && first <= page < first + len
    ensures page - first == Wrap(page - first, len)
  {
  }

  lemma MembersSnoc(keys: seq<nat>, key: nat)
    requires keys != [] && UpsAndDowns(keys)
    ensures var n := |keys| - 1;
            && UpsAndDowns(keys[..n]) && (keys[n] == UP_KEY || keys[n] == DOWN_KEY)
            && (key in keys <==> key in keys[..n] || keys[n] == key)
  {
    assert keys == keys[..|keys| - 1] + [keys[|keys| - 1]];
  }

  /** Within a parameter group UP presses move the selection round and round, DOWN presses do not move it, and one
      DOWN press is enough to mark an increment. */
  lemma {:induction false} GroupMoves(page: nat, keys: seq<nat>, first: nat, len: nat)
    requires ParamGroup(first, len) && first <= page < first + len && UpsAndDowns(keys)
    ensures first <= PageAfter(page, Typed(keys)) < first + len
    ensures PageAfter(page, Typed(keys)) - first == Wrap(page - first + CountKey(keys, UP_KEY), len)
    ensures Marks(page, Typed(keys)) <==> DOWN_KEY in keys
  {
    hide PageAfter, Marks, Typed, CountKey, Wrap, NextPage, UpsAndDowns, ParamGroup, ParamPage;
    GroupPages(page, first, len);
    if keys == [] {
      NoKeysTyped(page);
      NoMove(page, first, len);
    } else {
      var front, key := keys[..|keys| - 1], keys[|keys| - 1];
      var at := PageAfter(page, Typed(front));
      TypedMembers(page, keys);
      MembersSnoc(keys, DOWN_KEY);
      GroupMoves(page, front, first, len);
      GroupPages(at, first, len);
      GroupMove(at, key, first, len);
      ModularStep(page - first + CountKey(front, UP_KEY), if key == UP_KEY then 1 else 0, len, at - first);
    }
  }

  lemma NoKeysTyped(page: nat)
    requires page < PAGE_COUNT
    ensures PageAfter(page, Typed([])) == page && !Marks(page, Typed([])) && CountKey([], UP_KEY) == 0
  {
  }

  /** The last key of a typed list. */
  lemma TypedMembers(page: nat, keys: seq<nat>)
    requires page < PAGE_COUNT && keys != []
    ensures var front, key := keys[..|keys| - 1], keys[|keys| - 1];
            var at := PageAfter(page, Typed(front));
            && PageAfter(page, Typed(keys)) == NextPage(at, key)
            && (Marks(page, Typed(keys)) <==> Marks(page, Typed(front)) || (key == DOWN_KEY && ParamPage(at)))
            && CountKey(keys, UP_KEY) == CountKey(front, UP_KEY) + if key == UP_KEY then 1 else 0
  {
    hide NextPage, ParamPage;
    assert Typed(keys)[..|keys| - 1] == Typed(keys[..|keys| - 1]);
  }

  lemma {:induction false} TypedSettles(page: nat, params: Params, keys: seq<nat>)
    requires page < PAGE_COUNT && UpsAndDowns(keys)
    ensures Settled(page, params, Typed(keys)) == params
  {
    if keys != [] {
      assert Typed(keys)[..|keys| - 1] == Typed(keys[..|keys| - 1]);
      TypedSettles(page, params, keys[..|keys| - 1]);
    }
  }

  /** Of all DOWN presses on a parameter group between two redraws, an earlier pending one included, exactly one
      counts, and it goes to the parameter selected when the screen is redrawn. */
  lemma {:induction false} OneIncrementPerRedraw(
      f: Fonts, b: State, actions: seq<Action>, keys: seq<nat>, first: nat, len: nat)
    requires FontsOk(f) && Runnable(b) && ParamGroup(first, len) && first <= b.current < first + len
    requires Draw !in actions && MovesOf(f, b, actions) == Typed(keys) && keys != [] && UpsAndDowns(keys)
    ensures var d := Run(f, b, actions + [Draw]);
            && d.current == first + Wrap(b.current - first + CountKey(keys, UP_KEY), len)
            && d.params == (if b.addFlag || DOWN_KEY in keys then Increment(b.params, d.current) else b.params)
            && !d.addFlag
  {
    hide Run, DrawStep, MovesOf, ApplyAll, PageAfter, Marks, Settled, Increment, ParamPage, FontsOk, Runnable;
    hide Wrap, CountKey, UpsAndDowns, ParamGroup, Typed, Resets, NextPage;
    GroupPages(b.current, first, len);
    RunIsMoves(f, b, actions);
    NoDrawNoRedraw(f, b, actions);
    assert Typed(keys) != [] by { assert |Typed(keys)| == |keys|; }
    NoRedraw(ViewOf(b), Typed(keys));
    IncrementAtRedraw(f, b, actions);
    TypedSettles(b.current, b.params, keys);
    GroupMoves(b.current, keys, first, len);
    GroupPages(PageAfter(b.current, Typed(keys)), first, len);
  }

  // ---------- exactly when the board does what the presses asked for ----------

  /** The value a parameter page sets, and where it starts again at zero. */
  function Get(p: Params, page: nat): nat {
    if page == SENSOR_1 then p.distance
    else if page == SENSOR_2 then p.sensitivity
    else if page == SENSOR_3 then p.power
    else if page == OLED_1 then p.light
    else p.closeTime
  }

  function Limit(page: nat): (n: nat)
    ensures n in {100, 200, 255, 999}
  {
    if page == SENSOR_1 then 200
    else if page == SENSOR_2 then 100
    else if page == SENSOR_3 then 200
    else if page == OLED_1 then 255
    else 999
  }

  /** The parameters if every DOWN press raised, at once, the parameter selected when it was pressed. */
  function Ideal(v: View, ms: seq<Move>): Params
    requires v.page < PAGE_COUNT
  {
    if ms == [] then v.params
    else
      var page, m := PageAfter(v.page, ms[..|ms| - 1]), ms[|ms| - 1];
      if IsReset(page, m) then ResetParams(m.key)
      else if IsPress(page, m) then Increment(Ideal(v, ms[..|ms| - 1]), page)
      else Ideal(v, ms[..|ms| - 1])
  }

  /** The DOWN presses made while `page` was selected, since the last key that set all parameters. */
  function Pressed(start: nat, ms: seq<Move>, page: nat): nat
    requires start < PAGE_COUNT
  {
    if ms == [] then 0
    else
      var at, m := PageAfter(start, ms[..|ms| - 1]), ms[|ms| - 1];
      if IsReset(at, m) then 0
      else Pressed(start, ms[..|ms| - 1], page) + if IsPress(at, m) && at == page then 1 else 0
  }

  /** The move is a redraw that carries a pending press out on `page`. */
  predicate Carries(w: View, m: Move, page: nat) {
    m == Redraw && w.keyOn && w.pending && w.page == page
  }

  /** The redraws that carried a press out on `page`, since the last key that set all parameters. */
  function Carried(v: View, ms: seq<Move>, page: nat): nat
    requires v.page < PAGE_COUNT
  {
    if ms == [] then 0
    else
      var w, m := ApplyAll(v, ms[..|ms| - 1]), ms[|ms| - 1];
      if IsReset(w.page, m) then 0
      else Carried(v, ms[..|ms| - 1], page) + if Carries(w, m, page) then 1 else 0
  }

  lemma IncrementGet(p: Params, at: nat, page: nat)
    requires Bounded(p) && ParamPage(at) && ParamPage(page)
    ensures Bounded(Increment(p, at))
    ensures Get(p, page) < Limit(page)
    ensures Get(Increment(p, at), page) == if at != page then Get(p, page)
                                           else if Get(p, page) + 1 == Limit(page) then 0 else Get(p, page) + 1
  {
  }

  lemma SameParams(p: Params, q: Params)
    requires forall page :: ParamPage(page) ==> Get(p, page) == Get(q, page)
    ensures p == q
  {
    assert Get(p, SENSOR_1) == Get(q, SENSOR_1) && Get(p, SENSOR_2) == Get(q, SENSOR_2);
    assert Get(p, SENSOR_3) == Get(q, SENSOR_3);
    assert Get(p, OLED_1) == Get(q, OLED_1) && Get(p, OLED_2) == Get(q, OLED_2);
  }

  /** `v` raised n times, starting again at zero when it reaches the limit. */
  function Raised(v: nat, n: nat, limit: nat): nat {
    if n == 0 then v
    else
      var r := Raised(v, n - 1, limit);
      if r + 1 == limit then 0 else r + 1
  }

  lemma {:induction false} RaisedAround(v: nat, n: nat, limit: nat)
    requires v < limit && n <= limit
    ensures Raised(v, n, limit) == if v + n < limit then v + n else v + n - limit
  {
    if n > 0 { RaisedAround(v, n - 1, limit); }
  }

  lemma {:induction false} RaisedAdd(v: nat, a: nat, n: nat, limit: nat)
    ensures Raised(v, a + n, limit) == Raised(Raised(v, a, limit), n, limit)
  {
    if n > 0 { RaisedAdd(v, a, n - 1, limit); }
  }

  lemma Remainder100(n: nat)
    ensures n >= 100 ==> n % 100 == (n - 100) % 100
  {
  }

  lemma Remainder200(n: nat)
    ensures n >= 200 ==> n % 200 == (n - 200) % 200
  {
  }

  lemma Remainder255(n: nat)
    ensures n >= 255 ==> n % 255 == (n - 255) % 255
  {
  }

  lemma Remainder999(n: nat)
    ensures n >= 999 ==> n % 999 == (n - 999) % 999
  {
  }

  lemma Remainder(n: nat, limit: nat)
    requires limit in {100, 200, 255, 999} && n >= limit
    ensures n % limit == (n - limit) % limit
  {
    if limit == 100 { Remainder100(n); }
    else if limit == 200 { Remainder200(n); }
    else if limit == 255 { Remainder255(n); }
    else { Remainder999(n); }
  }

  lemma SmallRemainder(n: nat, limit: nat)
    requires n < limit
    ensures n % limit == n
  {
  }

  /** Raising n times and m times is the same exactly when n and m agree modulo the limit. */
  lemma {:induction false} RaisedSame(v: nat, n: nat, m: nat, limit: nat)
    requires limit in {100, 200, 255, 999} && m < limit && v < limit
    ensures Raised(v, n, limit) == Raised(v, m, limit) <==> n % limit == m
  {
    RaisedAround(v, m, limit);
    hide Raised;
    if n < limit {
      SmallRemainder(n, limit);
      RaisedAround(v, n, limit);
    } else {
      Remainder(n, limit);
      RaisedAround(v, limit, limit);
      RaisedAdd(v, limit, n - limit, limit);
      RaisedSame(v, n - limit, m, limit);
    }
  }

  lemma RaisedLess(v: nat, limit: nat)
    ensures Raised(v, 0, limit) == v
  {
  }

  lemma RaisedNext(v: nat, n: nat, limit: nat)
    ensures Raised(v, n + 1, limit) == if Raised(v, n, limit) + 1 == limit then 0 else Raised(v, n, limit) + 1
  {
  }

  lemma ResetBounded(key: nat)
    ensures Bounded(ResetParams(key))
  {
  }

  /** Either count, one move further. */
  predicate CountStep(reset: bool, raises: bool, before: nat, after: nat) {
    after == if reset then 0 else before + if raises then 1 else 0
  }

  /** A parameter that starts at a settled value and is raised by counted events holds the raised value. */
  lemma RaisedStep(settled: Params, settled': Params, p: Params, p': Params, n: nat, n': nat, at: nat, page: nat,
                   reset: bool, key: nat, increments: bool)
    requires Bounded(settled) && Bounded(p) && ParamPage(page) && (increments ==> ParamPage(at))
    requires Get(p, page) == Raised(Get(settled, page), n, Limit(page))
    requires settled' == if reset then ResetParams(key) else settled
    requires p' == if reset then ResetParams(key) else if increments then Increment(p, at) else p
    requires CountStep(reset, increments && at == page, n, n')
    ensures Bounded(settled') && Bounded(p')
    ensures Get(p', page) == Raised(Get(settled', page), n', Limit(page))
  {
    hide Bounded, Get, Limit, Raised, Increment, ResetParams, ParamPage;
    ResetBounded(key);
    RaisedLess(Get(settled', page), Limit(page));
    RaisedNext(Get(settled, page), n, Limit(page));
    if increments { IncrementGet(p, at, page); }
  }

  lemma {:induction false} IdealGet(v: View, ms: seq<Move>, page: nat)
    requires v.page < PAGE_COUNT && Bounded(v.params) && ParamPage(page)
    ensures Bounded(Ideal(v, ms)) && Bounded(Settled(v.page, v.params, ms))
    ensures Get(Ideal(v, ms), page)
         == Raised(Get(Settled(v.page, v.params, ms), page), Pressed(v.page, ms, page), Limit(page))
  {
    hide Bounded, Get, Limit, Raised, Increment, ResetParams, ParamPage, NextPage, PageAfter, Resets;
    if ms == [] {
      RaisedLess(Get(v.params, page), Limit(page));
    } else {
      var front, m := ms[..|ms| - 1], ms[|ms| - 1];
      var at := PageAfter(v.page, front);
      IdealGet(v, front, page);
      PressIsParam(at, m);
      RaisedStep(Settled(v.page, v.params, front), Settled(v.page, v.params, ms), Ideal(v, front), Ideal(v, ms),
                 Pressed(v.page, front, page), Pressed(v.page, ms, page), at, page,
                 IsReset(at, m), if m.Key? then m.key else 0, !IsReset(at, m) && IsPress(at, m));
    }
  }

  lemma PressIsParam(at: nat, m: Move)
    ensures IsPress(at, m) ==> ParamPage(at)
  {
  }

  lemma {:induction false} CarriedGet(v: View, ms: seq<Move>, page: nat)
    requires v.page < PAGE_COUNT && Bounded(v.params) && ParamPage(page)
    ensures Bounded(ApplyAll(v, ms).params) && Bounded(Settled(v.page, v.params, ms))
    ensures Get(ApplyAll(v, ms).params, page)
         == Raised(Get(Settled(v.page, v.params, ms), page), Carried(v, ms, page), Limit(page))
  {
    hide Bounded, Get, Limit, Raised, Increment, ResetParams, NextPage, PageAfter, Resets, Apply, ParamPage;
    if ms == [] {
      RaisedLess(Get(v.params, page), Limit(page));
    } else {
      var front, m := ms[..|ms| - 1], ms[|ms| - 1];
      var w := ApplyAll(v, front);
      CarriedGet(v, front, page);
      PageFollows(v, front);
      ParamsStep(w, m);
      var increments := m == Redraw && w.keyOn && w.pending && ParamPage(w.page);
      RaisedStep(Settled(v.page, v.params, front), Settled(v.page, v.params, ms), w.params, ApplyAll(v, ms).params,
                 Carried(v, front, page), Carried(v, ms, page), w.page, page,
                 IsReset(w.page, m), if m.Key? then m.key else 0, increments);
    }
  }

  lemma ParamsStep(w: View, m: Move)
    requires w.page < PAGE_COUNT
    ensures Apply(w, m).params == if IsReset(w.page, m) then ResetParams(m.key)
                                  else if m == Redraw && w.keyOn && w.pending && ParamPage(w.page)
                                  then Increment(w.params, w.page) else w.params
  {
    hide NextPage, Increment, ResetParams, Resets;
  }

  /** Raising n times and m times is the same exactly when n and m agree modulo the limit. */
  lemma RaisedAgree(v: nat, n: nat, m: nat, limit: nat)
    requires limit in {100, 200, 255, 999} && v < limit
    ensures Raised(v, n, limit) == Raised(v, m, limit) <==> n % limit == m % limit
  {
    hide Raised;
    RaisedSame(v, m, m % limit, limit);
    RaisedSame(v, n, m % limit, limit);
  }

  lemma OneParameter(v: View, ms: seq<Move>, page: nat)
    requires v.page < PAGE_COUNT && Bounded(v.params) && ParamPage(page)
    ensures Get(ApplyAll(v, ms).params, page) == Get(Ideal(v, ms), page) <==>
            Pressed(v.page, ms, page) % Limit(page) == Carried(v, ms, page) % Limit(page)
  {
    var s := Settled(v.page, v.params, ms);
    hide ApplyAll, Ideal, Pressed, Carried, Get, Limit, Raised, Settled, Bounded, Increment, ParamPage;
    IdealGet(v, ms, page);
    CarriedGet(v, ms, page);
    IncrementGet(s, page, page);
    RaisedAgree(Get(s, page), Pressed(v.page, ms, page), Carried(v, ms, page), Limit(page));
  }

  lemma {:induction false} ViewFaithfulIff(v: View, ms: seq<Move>)
    requires v.page < PAGE_COUNT && Bounded(v.params)
    ensures ApplyAll(v, ms).params == Ideal(v, ms) <==>
            forall page :: ParamPage(page) ==>
              Pressed(v.page, ms, page) % Limit(page) == Carried(v, ms, page) % Limit(page)
  {
    hide ApplyAll, Ideal, Pressed, Carried, Get, Limit, Bounded;
    forall page | ParamPage(page)
      ensures Get(ApplyAll(v, ms).params, page) == Get(Ideal(v, ms), page) <==>
              Pressed(v.page, ms, page) % Limit(page) == Carried(v, ms, page) % Limit(page)
    {
      OneParameter(v, ms, page);
    }
    if forall page :: ParamPage(page) ==>
         Pressed(v.page, ms, page) % Limit(page) == Carried(v, ms, page) % Limit(page) {
      SameParams(ApplyAll(v, ms).params, Ideal(v, ms));
    }
  }

  /** Over every run of the board, with any number of redraws and timeouts: the parameters are what they would be had
      every DOWN press at once raised the parameter selected then, if and only if for every parameter the presses made
      on its page and the redraws that carried a press out on it agree modulo its limit. */
  lemma {:induction false} RunFaithfulIff(f: Fonts, b: State, actions: seq<Action>)
    requires FontsOk(f) && Runnable(b)
    ensures var v, ms := ViewOf(b), MovesOf(f, b, actions);
            Run(f, b, actions).params == Ideal(v, ms) <==>
            forall page :: ParamPage(page) ==>
              Pressed(b.current, ms, page) % Limit(page) == Carried(v, ms, page) % Limit(page)
  {
    hide Run, MovesOf, ApplyAll, Ideal, Pressed, Carried, Limit;
    RunIsMoves(f, b, actions);
    ViewFaithfulIff(ViewOf(b), MovesOf(f, b, actions));
  }

  /** The increments the next redraw carries out on `page`, from the moves since the last one: one on the page the
      moves lead to when a press is pending, none elsewhere. */
  function Given(v: View, ms: seq<Move>, page: nat): nat
    requires v.page < PAGE_COUNT
  {
    if (v.pending || Marks(v.page, ms)) && page == PageAfter(v.page, ms) then 1 else 0
  }

  lemma {:induction false} NothingCarried(v: View, ms: seq<Move>, page: nat)
    requires v.page < PAGE_COUNT && Redraw !in ms
    ensures Carried(v, ms, page) == 0
  {
    if ms != [] {
      NothingCarried(v, ms[..|ms| - 1], page);
      hide ApplyAll, Resets;
    }
  }

  /** A closing redraw asks for nothing, and carries out what is given. */
  lemma ClosingRedraw(v: View, ms: seq<Move>, page: nat)
    requires v.page < PAGE_COUNT && Redraw !in ms && ApplyAll(v, ms).keyOn
    ensures Ideal(v, ms + [Redraw]) == Ideal(v, ms)
    ensures Pressed(v.page, ms + [Redraw], page) == Pressed(v.page, ms, page)
    ensures Carried(v, ms + [Redraw], page) == Given(v, ms, page)
  {
    assert (ms + [Redraw])[..|ms|] == ms;
    NothingCarried(v, ms, page);
    NoRedraw(v, ms);
    PageFollows(v, ms);
    hide ApplyAll, Marks, Settled, Resets, NextPage, PageAfter;
  }

  /** After any steps without a screen pass, timeouts included, the redraw agrees with raising at each press the
      parameter selected at that press, if and only if for every parameter the presses made on its page equal, modulo
      its limit, the increments it is given. */
  lemma {:induction false} RedrawFaithfulIff(f: Fonts, b: State, actions: seq<Action>)
    requires FontsOk(f) && Runnable(b) && Draw !in actions && Run(f, b, actions).keyOn
    ensures var v, ms := ViewOf(b), MovesOf(f, b, actions);
            Run(f, b, actions + [Draw]).params == Ideal(v, ms) <==>
            forall page :: ParamPage(page) ==> Pressed(b.current, ms, page) % Limit(page) == Given(v, ms, page)
  {
    var v, ms, r := ViewOf(b), MovesOf(f, b, actions), Run(f, b, actions);
    hide Run, MovesOf, DrawStep, ApplyAll, Apply, Ideal, Pressed, Carried, Given, Limit, FontsOk, ParamPage, Bounded;
    RunIsMoves(f, b, actions);
    NoDrawNoRedraw(f, b, actions);
    DrawLast(f, b, actions);
    DrawMoves(f, r);
    ApplySnoc(v, ms, Redraw);
    ViewFaithfulIff(v, ms + [Redraw]);
    forall page | ParamPage(page)
      ensures Pressed(v.page, ms + [Redraw], page) == Pressed(v.page, ms, page)
      ensures Carried(v, ms + [Redraw], page) % Limit(page) == Given(v, ms, page)
    {
      ClosingRedraw(v, ms, page);
      SmallGiven(v, ms, page);
    }
    ClosingRedraw(v, ms, 0);
  }

  lemma SmallGiven(v: View, ms: seq<Move>, page: nat)
    requires v.page < PAGE_COUNT
    ensures Given(v, ms, page) % Limit(page) == Given(v, ms, page)
  {
    hide Marks, PageAfter, Limit;
    SmallRemainder(Given(v, ms, page), Limit(page));
  }

  // ---------- where a pending press ends up ----------

  /** No redraw of the moves shows a parameter page. */
  predicate Elsewhere(v: View, ms: seq<Move>)
    requires v.page < PAGE_COUNT
  {
    ms == [] ||
    (var w := ApplyAll(v, ms[..|ms| - 1]);
     Elsewhere(v, ms[..|ms| - 1]) && (ms[|ms| - 1] == Redraw && w.keyOn ==> !ParamPage(w.page)))
  }

  /** A pending press outlives every redraw of other pages. */
  lemma {:induction false} PendingWaits(v: View, ms: seq<Move>)
    requires v.page < PAGE_COUNT && v.pending && Elsewhere(v, ms)
    ensures ApplyAll(v, ms).pending && ApplyAll(v, ms).params == Settled(v.page, v.params, ms)
  {
    if ms != [] {
      PendingWaits(v, ms[..|ms| - 1]);
      PageFollows(v, ms[..|ms| - 1]);
      hide NextPage, Resets, ResetParams, Increment, ParamPage, PageAfter;
    }
  }

  /** A pending press, over any run whose redraws show other pages, is still pending, with the parameters as the keys
      left them; the first redraw of a parameter page raises that page's parameter and nothing else, whatever page the
      press was made on. */
  lemma {:induction false} PendingGoesTo(f: Fonts, b: State, actions: seq<Action>)
    requires FontsOk(f) && Runnable(b) && b.addFlag && Elsewhere(ViewOf(b), MovesOf(f, b, actions))
    ensures var r, ms := Run(f, b, actions), MovesOf(f, b, actions);
            && r.addFlag && r.current == PageAfter(b.current, ms) && r.params == Settled(b.current, b.params, ms)
            && (r.keyOn && ParamPage(r.current) ==>
                  DrawStep(f, r).params == Increment(r.params, r.current) && !DrawStep(f, r).addFlag)
  {
    var v, ms := ViewOf(b), MovesOf(f, b, actions);
    hide Run, DrawStep, MovesOf, ApplyAll, PageAfter, Settled, Increment, ParamPage, FontsOk, Runnable, Elsewhere;
    RunIsMoves(f, b, actions);
    PendingWaits(v, ms);
    PageFollows(v, ms);
    DrawMoves(f, Run(f, b, actions));
  }

  /** The two ways back to the main page from anywhere. */
  predicate GoesHome(m: Move) {
    m == Timeout || m == Key(MENU_KEY)
  }

  predicate WentHome(ms: seq<Move>) {
    ms != [] && (GoesHome(ms[|ms| - 1]) || WentHome(ms[..|ms| - 1]))
  }

  /** The moves after the last return to the main page. */
  function SinceHome(ms: seq<Move>): seq<Move> {
    if ms == [] || GoesHome(ms[|ms| - 1]) then [] else SinceHome(ms[..|ms| - 1]) + [ms[|ms| - 1]]
  }

  predicate SensorSide(page: nat) {
    SensorPageNo(page) || page == SENSOR_CONFIRM
  }

  predicate OledSide(page: nat) {
    OledPageNo(page) || page == OLED_CONFIRM
  }

  lemma StaysOnSide(page: nat, key: nat)
    requires page < PAGE_COUNT && key != MENU_KEY
    ensures SensorSide(page) ==> SensorSide(NextPage(page, key))
    ensures OledSide(page) ==> OledSide(NextPage(page, key))
  {
  }

  lemma {:induction false} NeverHome(page: nat, ms: seq<Move>)
    requires page < PAGE_COUNT && !WentHome(ms)
    ensures SensorSide(page) ==> SensorSide(PageAfter(page, ms))
    ensures OledSide(page) ==> OledSide(PageAfter(page, ms))
  {
    if ms != [] {
      var front, m := ms[..|ms| - 1], ms[|ms| - 1];
      NeverHome(page, front);
      if m.Key? { StaysOnSide(PageAfter(page, front), m.key); }
      hide NextPage, SensorSide, OledSide;
    }
  }

  /** After a return to the main page only what follows the last one matters. */
  lemma {:induction false} FromMain(page: nat, ms: seq<Move>)
    requires page < PAGE_COUNT && WentHome(ms)
    ensures PageAfter(page, ms) == PageAfter(MAIN, SinceHome(ms))
  {
    var front, m := ms[..|ms| - 1], ms[|ms| - 1];
    if !GoesHome(m) {
      FromMain(page, front);
      assert (SinceHome(front) + [m])[..|SinceHome(front)|] == SinceHome(front);
      hide NextPage;
    }
  }

  /** Over every run between two parameter pages: the second lies outside the first one's group if and only if a MENU
      press or a timeout led back to the main page and the moves since the last of them lead into the other group. */
  lemma {:induction false} OutsideGroupIff(f: Fonts, b: State, actions: seq<Action>)
    requires FontsOk(f) && Runnable(b) && ParamPage(b.current) && ParamPage(Run(f, b, actions).current)
    ensures var ms := MovesOf(f, b, actions);
            SensorPageNo(Run(f, b, actions).current) != SensorPageNo(b.current) <==>
            WentHome(ms) && SensorPageNo(PageAfter(MAIN, SinceHome(ms))) != SensorPageNo(b.current)
  {
    var ms := MovesOf(f, b, actions);
    hide Run, MovesOf, ApplyAll, PageAfter, SinceHome, WentHome, FontsOk, Runnable;
    RunIsMoves(f, b, actions);
    PageFollows(ViewOf(b), ms);
    if WentHome(ms) { FromMain(b.current, ms); } else { NeverHome(b.current, ms); }
  }

  // ---------- reachable examples ----------

  const SENSOR_KEYS := [ENTER_KEY, ENTER_KEY, ENTER_KEY]
  const SCREEN_KEYS := [ENTER_KEY, UP_KEY, ENTER_KEY]

  /** Three ENTER strokes and a redraw lead to the distance page, with every parameter zero and nothing pending. */
  lemma ToDistance(f: Fonts) returns (r: State)
    requires FontsOk(f)
    ensures r == Run(f, PowerOn(), Session.RoundActions(SENSOR_KEYS)) && Runnable(r) && Keys.AtRest(r.keys)
    ensures ViewOf(r) == View(SENSOR_1, NO_PARAMS, false, false)
  {
    r := Run(f, PowerOn(), Session.RoundActions(SENSOR_KEYS));
    Session.RoundRuns(f, PowerOn(), SENSOR_KEYS);
    hide Run, Session.RoundActions, ApplyAll;
    Session.TypedThree(ViewOf(PowerOn()), ENTER_KEY, ENTER_KEY, ENTER_KEY);
  }

  /** From the main page with a press pending, ENTER, UP, ENTER and a redraw raise the brightness. */
  lemma ToBrightness(f: Fonts, b: State) returns (r: State)
    requires FontsOk(f) && Runnable(b) && Keys.AtRest(b.keys)
    requires b.current == MAIN && b.params == NO_PARAMS && b.addFlag
    ensures r == Run(f, b, Session.RoundActions(SCREEN_KEYS))
    ensures r.current == OLED_1 && r.params == NO_PARAMS.(light := 1)
  {
    r := Run(f, b, Session.RoundActions(SCREEN_KEYS));
    Session.RoundRuns(f, b, SCREEN_KEYS);
    hide Run, Session.RoundActions, ApplyAll;
    Session.TypedThree(ViewOf(b), ENTER_KEY, UP_KEY, ENTER_KEY);
  }

  /** Two short strokes of DOWN on the distance page, then a redraw, at the pins from power-on: distance goes up by
      one. */
  lemma TwoPressesOneIncrement(f: Fonts) returns (lead: seq<Action>, twice: seq<Action>)
    requires FontsOk(f)
    ensures lead == Session.RoundActions(SENSOR_KEYS) && twice == Session.RoundActions([DOWN_KEY, DOWN_KEY])
    ensures ViewOf(Run(f, PowerOn(), lead)) == View(SENSOR_1, NO_PARAMS, false, false)
    ensures Run(f, PowerOn(), lead + twice).params == NO_PARAMS.(distance := 1)
  {
    lead, twice := Session.RoundActions(SENSOR_KEYS), Session.RoundActions([DOWN_KEY, DOWN_KEY]);
    var r := ToDistance(f);
    hide Run, Session.RoundActions, ApplyAll;
    Session.RunConcat(f, PowerOn(), lead, twice);
    Session.RoundRuns(f, r, [DOWN_KEY, DOWN_KEY]);
    Session.TypedTwo(ViewOf(r), DOWN_KEY, DOWN_KEY);
  }

  lemma DownThenMenu(f: Fonts, b: State) returns (r: State)
    requires FontsOk(f) && Runnable(b) && Keys.AtRest(b.keys)
    requires ViewOf(b) == View(SENSOR_1, NO_PARAMS, false, false)
    ensures r == Run(f, b, Session.RoundActions([DOWN_KEY, MENU_KEY])) && Runnable(r) && Keys.AtRest(r.keys)
    ensures ViewOf(r) == View(MAIN, NO_PARAMS, true, false)
  {
    r := Run(f, b, Session.RoundActions([DOWN_KEY, MENU_KEY]));
    Session.RoundRuns(f, b, [DOWN_KEY, MENU_KEY]);
    hide Run, Session.RoundActions, ApplyAll;
    Session.TypedTwo(ViewOf(b), DOWN_KEY, MENU_KEY);
  }

  /** One DOWN on the distance page, MENU before the redraw, and then the way to the screen settings: the press
      made on the distance page raises the brightness. */
  lemma StrayIncrement(f: Fonts) returns (lead: seq<Action>, away: seq<Action>, rest: seq<Action>)
    requires FontsOk(f)
    ensures lead == Session.RoundActions(SENSOR_KEYS) && away == Session.RoundActions([DOWN_KEY, MENU_KEY])
    ensures rest == Session.RoundActions(SCREEN_KEYS)
    ensures ViewOf(Run(f, PowerOn(), lead + away)) == View(MAIN, NO_PARAMS, true, false)
    ensures var r := Run(f, PowerOn(), lead + away + rest);
            r.current == OLED_1 && r.params == NO_PARAMS.(light := 1)
  {
    lead, away := Session.RoundActions(SENSOR_KEYS), Session.RoundActions([DOWN_KEY, MENU_KEY]);
    rest := Session.RoundActions(SCREEN_KEYS);
    var r := ToDistance(f);
    hide Run, Session.RoundActions, ApplyAll, Apply, FontsOk, Runnable;
    Session.RunConcat(f, PowerOn(), lead, away);
    r := DownThenMenu(f, r);
    Session.RunConcat(f, PowerOn(), lead + away, rest);
    var r' := ToBrightness(f, r);
  }

  function LatePress(): seq<Action> {
    Session.RoundActions(SENSOR_KEYS) + Session.Ticks(SysTimer.MINUTE) + Session.ClickActions([DOWN_KEY])
  }

  /** On the distance page the minute runs out, and a DOWN stroke comes before the system pass. */
  lemma PressedLate(f: Fonts) returns (r: State)
    requires FontsOk(f)
    ensures r == Run(f, PowerOn(), LatePress()) && Runnable(r) && Keys.AtRest(r.keys) && r.timer.flagMin
    ensures ViewOf(r) == View(SENSOR_1, NO_PARAMS, true, true)
  {
    var lead, ticks := Session.RoundActions(SENSOR_KEYS), Session.Ticks(SysTimer.MINUTE);
    var click := Session.ClickActions([DOWN_KEY]);
    r := ToDistance(f);
    var late := MinuteOnDistance(f, r);
    hide Run, Session.RoundActions, Session.ClickActions, Session.Ticks, ApplyAll, FontsOk, Runnable, PowerOn;
    Session.RunConcat(f, PowerOn(), lead, ticks);
    Session.RunConcat(f, PowerOn(), lead + ticks, click);
    Session.ClicksRun(f, late, [DOWN_KEY]);
    TypedOne(ViewOf(late), DOWN_KEY);
    r := Run(f, PowerOn(), LatePress());
  }

  /** The same without MENU: the system pass after such a late press goes back to the main page. The redraw leaves the
      distance at zero, and the press raises the brightness later. */
  lemma TimeoutStraysIncrement(f: Fonts) returns (press: seq<Action>, rest: seq<Action>)
    requires FontsOk(f)
    ensures press == Session.RoundActions(SENSOR_KEYS) + Session.Ticks(SysTimer.MINUTE)
                     + Session.ClickActions([DOWN_KEY])
    ensures rest == Session.RoundActions(SCREEN_KEYS)
    ensures ViewOf(Run(f, PowerOn(), press)) == View(SENSOR_1, NO_PARAMS, true, true)
    ensures ViewOf(Run(f, PowerOn(), press + [System, Draw])) == View(MAIN, NO_PARAMS, true, false)
    ensures var r := Run(f, PowerOn(), press + [System, Draw] + rest);
            r.current == OLED_1 && r.params == NO_PARAMS.(light := 1)
  {
    press, rest := LatePress(), Session.RoundActions(SCREEN_KEYS);
    assert Runnable(PowerOn());
    hide Run, Session.RoundActions, Session.ClickActions, Session.Ticks, FontsOk, Runnable, PowerOn;
    var pressed := PressedLate(f);
    Session.RunConcat(f, PowerOn(), press, [System, Draw]);
    SystemThenDraw(f, pressed);
    var away := Run(f, PowerOn(), press + [System, Draw]);
    assert away == Run(f, pressed, [System, Draw]);
    assert ViewOf(away) == View(MAIN, NO_PARAMS, true, false);
    Session.RunConcat(f, PowerOn(), press + [System, Draw], rest);
    var r := ToBrightness(f, away);
  }

  lemma TypedOne(v: View, key: nat)
    requires v.page < PAGE_COUNT
    ensures ApplyAll(v, Typed([key])) == Apply(v, Key(key))
  {
    hide Apply;
    assert Typed([key]) == [Key(key)];
    SingleMove(v, Key(key));
  }

  /** A minute of ticks on the distance page, with the system thread kept away. */
  lemma MinuteOnDistance(f: Fonts, r: State) returns (late: State)
    requires FontsOk(f) && r == Run(f, PowerOn(), Session.RoundActions(SENSOR_KEYS)) && r.current == SENSOR_1
    ensures late == Run(f, r, Session.Ticks(SysTimer.MINUTE)) && late == r.(timer := late.timer) && late.timer.flagMin
  {
    late := Run(f, r, Session.Ticks(SysTimer.MINUTE));
    hide Run, Session.RoundActions, Session.Ticks, Ok, NoPress, TickCount;
    PowerOnOk(f);
    RunOk(f, PowerOn(), Session.RoundActions(SENSOR_KEYS));
    Session.TicksOnly(f, r, SysTimer.MINUTE);
    OkFacts(f, r);
    Session.FlagAfterMinute(f, r, Session.Ticks(SysTimer.MINUTE));
  }

  lemma SystemThenDraw(f: Fonts, b: State)
    requires FontsOk(f) && Runnable(b) && b.timer.flagMin
    ensures var r := Run(f, b, [System, Draw]);
            Runnable(r) && ViewOf(r) == Apply(Apply(ViewOf(b), Timeout), Redraw) && r.keys == b.keys
  {
    var one, two := [System], [System, Draw];
    assert two[..1] == one && one[..0] == [];
    assert Run(f, b, one[..0]) == b;
    assert Run(f, b, one) == SystemStep(b);
    assert Run(f, b, two) == DrawStep(f, SystemStep(b));
    StepRunnable(f, b, System);
    hide Run, DrawStep, SystemStep, Apply;
    SystemMoves(b);
    DrawMoves(f, SystemStep(b));
  }
}
