/** The board's threads as code over the key pad, the timer and the panel. Each pass is proved to be one step
    of the machine in `Board`. The key and screen passes run under one mutex; the system pass is taken to be
    atomic as well. */
module ControlBoard {
  import opened Display
  import opened Pages
  import opened Board
  import Utf8
  import Labels
  import Keys
  import SysTimer
  import Oled

  lemma DrawTilesSnoc(s: Bytes, ts: seq<Tile>, t: Tile)
    requires |s| == CELLS && TilesOk(ts) && TileOk(t)
    ensures TilesOk(ts + [t]) && DrawTiles(s, ts + [t]) == DrawTile(DrawTiles(s, ts), t)
  {
    assert (ts + [t])[..|ts|] == ts;
  }

  /** The driver's range test on the previous page is membership of the current page's group. */
  lemma RangeIsGroup(pre: nat, cur: nat)
    requires pre < PAGE_COUNT && SET_1 <= cur <= OLED_2
    ensures SameGroup(pre, cur) <==> Table(cur).minPage <= pre <= Table(cur).maxPage
  {
  }

  lemma OnlyItself(pre: nat, cur: nat)
    requires cur < PAGE_COUNT && !(SET_1 <= cur <= OLED_2)
    ensures SameGroup(pre, cur) <==> pre == cur
  {
  }

  /** Where the panel's memory stands after the group test: cleared, or still the old picture. */
  function Base(b: State): (s: Bytes)
    requires |b.screen| == CELLS
    ensures |s| == CELLS
  {
    if SameGroup(b.pre, b.current) then b.screen else Blank(CELLS)
  }

  class Device {
    const pad: Keys.KeyPad
    const tim: SysTimer.SysTim
    const panel: Oled.Panel
    const fonts: Fonts
    const table: seq<bv8>
    var current: nat
    var pre: nat
    var keyOn: bool
    var addFlag: bool
    var distance: nat
    var sensitivity: nat
    var power: nat
    var light: nat
    var closeTime: nat

    ghost function Parameters(): Params
      reads this
    {
      Params(closeTime, distance, sensitivity, power, light)
    }

    ghost function Model(): State
      reads this, pad, tim, panel, panel.gram
    {
      State(pad.Model(), tim.Model(), current, pre, keyOn, addFlag, Parameters(), panel.gram[..])
    }

    ghost predicate Valid()
      reads this, pad, tim, panel, panel.gram
    {
      && FontsOk(fonts) && Utf8.Holds(table, fonts.full.chars)
      && panel.Valid() && SysTimer.Digits(tim.Model())
      && Runnable(Model()) && pre < PAGE_COUNT
    }

    constructor (fonts: Fonts, table: seq<bv8>)
      requires FontsOk(fonts) && Utf8.Holds(table, fonts.full.chars)
      ensures Valid() && Model() == PowerOn()
      ensures this.fonts == fonts && fresh(pad) && fresh(tim) && fresh(panel) && fresh(panel.gram)
    {
      pad := new Keys.KeyPad();
      tim := new SysTimer.SysTim();
      panel := new Oled.Panel();
      this.fonts, this.table := fonts, table;
      current, pre, keyOn, addFlag := WELCOME, WELCOME, true, false;
      distance, sensitivity, power, light, closeTime := 0, 0, 0, 0, 0;
    }

    // ---------- drawing primitives ----------

    /** What every drawing method may rely on and keeps. */
    ghost predicate Drawable()
      reads this, panel
    {
      FontsOk(fonts) && Utf8.Holds(table, fonts.full.chars) && panel.Valid()
    }

    method DrawPart(page: nat, column: nat, text: Labels.Text, len: nat)
      requires Drawable() && page + 2 <= PAGES && len <= 16 && 8 * column + 16 * len <= COLUMNS
      modifies panel, panel.gram
      ensures Drawable() && panel.gram[..] == DrawTile(old(panel.gram[..]), LabelTile(fonts, page, column, text, len))
    {
      hide DrawTile, Labels.Chars, Utf8.GlyphsOf, FontsOk;
      assert Utf8.FontOk(fonts.full) && HalfFontOk(fonts.half) by { FontsParts(fonts); }
      Labels.TextPrintable(text);
      var memory := Utf8.Encode(Labels.Chars(text)) + [0];
      var strw, k := Utf8.Lookup(memory, len, table, fonts.full, Labels.Chars(text));
      panel.DrawGlyphs(Tile(page, column, 16, k, strw));
    }

    method DrawHalfPart(page: nat, column: nat, str: seq<bv8>)
      requires Drawable() && page + 2 <= PAGES && 8 * column + 8 * |str| <= COLUMNS
      requires forall i :: 0 <= i < |str| ==> str[i] != 0
      modifies panel, panel.gram
      ensures Drawable() && panel.gram[..] == DrawTile(old(panel.gram[..]), HalfTile(fonts, page, column, str))
    {
      hide DrawTile, HalfGlyphs;
      var strw := HalfBuffer(str);
      panel.DrawGlyphs(Tile(page, column, 8, |str|, strw));
    }

    method HalfBuffer(str: seq<bv8>) returns (strw: Bytes)
      requires HalfFontOk(fonts.half) && |str| <= 32 && forall i :: 0 <= i < |str| ==> str[i] != 0
      ensures strw == HalfGlyphs(fonts.half, str) + Blank(512 - 16 * |str|)
    {
      hide HalfGlyph;
      strw := [];
      var k := 0;
      while k < |str|
        invariant 0 <= k <= |str| && strw == HalfGlyphs(fonts.half, str[..k])
      {
        var glyph := FindHalf(str[k]);
        assert str[..k + 1][..k] == str[..k];
        strw := strw + glyph;
        k := k + 1;
      }
      assert str[..|str|] == str;
      strw := strw + Blank(512 - 16 * |str|);
    }

    /** Try every entry of the half-width table; a later match overwrites an earlier one. */
    method FindHalf(c: bv8) returns (glyph: Bytes)
      requires HalfFontOk(fonts.half) && c != 0
      ensures glyph == HalfGlyph(fonts.half, c, 100)
    {
      glyph := Blank(16);
      var i := 0;
      while i < 100
        invariant 0 <= i <= 100 && glyph == HalfGlyph(fonts.half, c, i)
      {
        if fonts.half.code[i] == c {
          glyph := fonts.half.glyphs[16 * i..16 * i + 16];
        }
        i := i + 1;
      }
    }

    method ValToStr(v: nat) returns (output: Bytes)
      requires HalfFontOk(fonts.half) && v < 65536
      ensures output == DigitGlyphs(fonts.half, Digits(v))
    {
      var digits := [v / 10000, v % 1000 / 100, v % 100 / 10, v % 10];
      output := [];
      var i := 0;
      while i < 4
        invariant 0 <= i <= 4 && output == DigitGlyphs(fonts.half, digits[..i])
      {
        assert digits[..i + 1][..i] == digits[..i];
        output := output + fonts.half.glyphs[16 * digits[i]..16 * digits[i] + 16];
        i := i + 1;
      }
      assert digits[..4] == digits;
    }

    method DrawNumber(row: nat, v: nat)
      requires Drawable() && row + 2 <= PAGES && v < 65536
      modifies panel, panel.gram
      ensures Drawable() && panel.gram[..] == DrawTile(old(panel.gram[..]), NumberTile(fonts, row, v))
    {
      hide DrawTile, DigitGlyphs, Digits;
      var oledNum := ValToStr(v);
      panel.DrawGlyphs(Tile(row, 10, 8, 4, oledNum));
    }

    // ---------- one more tile on a picture in progress ----------

    method Label(page: nat, column: nat, text: Labels.Text, len: nat, ghost base: Bytes, ghost ts: seq<Tile>)
      returns (ghost ts': seq<Tile>)
      requires Drawable() && page + 2 <= PAGES && len <= 16 && 8 * column + 16 * len <= COLUMNS
      requires |base| == CELLS && TilesOk(ts) && panel.gram[..] == DrawTiles(base, ts)
      modifies panel, panel.gram
      ensures Drawable() && ts' == ts + [LabelTile(fonts, page, column, text, len)]
      ensures TilesOk(ts') && panel.gram[..] == DrawTiles(base, ts')
    {
      hide DrawTile, DrawTiles, LabelTile;
      DrawPart(page, column, text, len);
      DrawTilesSnoc(base, ts, LabelTile(fonts, page, column, text, len));
      ts' := ts + [LabelTile(fonts, page, column, text, len)];
    }

    method Half(page: nat, column: nat, str: seq<bv8>, ghost base: Bytes, ghost ts: seq<Tile>)
      returns (ghost ts': seq<Tile>)
      requires Drawable() && page + 2 <= PAGES && 8 * column + 8 * |str| <= COLUMNS
      requires forall i :: 0 <= i < |str| ==> str[i] != 0
      requires |base| == CELLS && TilesOk(ts) && panel.gram[..] == DrawTiles(base, ts)
      modifies panel, panel.gram
      ensures Drawable() && ts' == ts + [HalfTile(fonts, page, column, str)]
      ensures TilesOk(ts') && panel.gram[..] == DrawTiles(base, ts')
    {
      hide DrawTile, DrawTiles, HalfTile;
      DrawHalfPart(page, column, str);
      DrawTilesSnoc(base, ts, HalfTile(fonts, page, column, str));
      ts' := ts + [HalfTile(fonts, page, column, str)];
    }

    method Number(row: nat, v: nat, ghost base: Bytes, ghost ts: seq<Tile>) returns (ghost ts': seq<Tile>)
      requires Drawable() && row + 2 <= PAGES && v < 65536
      requires |base| == CELLS && TilesOk(ts) && panel.gram[..] == DrawTiles(base, ts)
      modifies panel, panel.gram
      ensures Drawable() && ts' == ts + [NumberTile(fonts, row, v)]
      ensures TilesOk(ts') && panel.gram[..] == DrawTiles(base, ts')
    {
      hide DrawTile, DrawTiles, NumberTile;
      DrawNumber(row, v);
      DrawTilesSnoc(base, ts, NumberTile(fonts, row, v));
      ts' := ts + [NumberTile(fonts, row, v)];
    }

    method ClearRow(row: nat, ghost base: Bytes, ghost ts: seq<Tile>) returns (ghost ts': seq<Tile>)
      requires Drawable() && row + 2 <= PAGES
      requires |base| == CELLS && TilesOk(ts) && panel.gram[..] == DrawTiles(base, ts)
      modifies panel, panel.gram
      ensures Drawable() && ts' == ts + [ClearTile(row)]
      ensures TilesOk(ts') && panel.gram[..] == DrawTiles(base, ts')
    {
      hide DrawTile, DrawTiles;
      panel.ClearHalfPart(row, 0);
      DrawTilesSnoc(base, ts, ClearTile(row));
      ts' := ts + [ClearTile(row)];
    }

    // ---------- pages ----------

    /** Clear unless the previous picture is kept, and note the page being drawn. */
    method StartPage(keep: bool)
      requires Drawable()
      modifies `pre, panel, panel.gram
      ensures Drawable() && pre == current
      ensures panel.gram[..] == if keep then old(panel.gram[..]) else Blank(CELLS)
    {
      if !keep { panel.ClearOled(); }
      pre := current;
    }

    method DrawWelcomePage()
      requires Valid() && current == WELCOME
      modifies `pre, panel, panel.gram
      ensures Drawable() && pre == current && ParamsFit(Parameters())
      ensures panel.gram[..] == DrawTiles(Base(old(Model())), PageTiles(fonts, current, Parameters()))
    {
      hide LabelTile, DrawTiles, FontsOk;
      ghost var base := Base(Model());
      OnlyItself(pre, current);
      StartPage(pre == current);
      ghost var ts: seq<Tile> := [];
      NoTiles(base);
      ts := Label(2, 4, Labels.Welcome, 4, base, ts);
      ts := Label(5, 3, Labels.PressConfirm, 5, base, ts);
      assert ts == PageTiles(fonts, WELCOME, Parameters());
    }

    method DrawMainPage()
      requires Valid() && current == MAIN
      modifies `pre, panel, panel.gram
      ensures Drawable() && pre == current && ParamsFit(Parameters())
      ensures panel.gram[..] == DrawTiles(Base(old(Model())), PageTiles(fonts, current, Parameters()))
    {
      hide LabelTile, DrawTiles, FontsOk;
      ghost var base := Base(Model());
      OnlyItself(pre, current);
      StartPage(pre == current);
      ghost var ts: seq<Tile> := [];
      NoTiles(base);
      ts := Label(0, 0, Labels.LivingRoom, 2, base, ts);
      ts := Label(3, 0, Labels.Room, 4, base, ts);
      ts := Label(6, 0, Labels.Kitchen, 4, base, ts);
      assert ts == PageTiles(fonts, MAIN, Parameters());
    }

    method DrawSetPage()
      requires Valid() && SET_1 <= current <= SET_5
      modifies `pre, panel, panel.gram
      ensures Drawable() && pre == current && ParamsFit(Parameters())
      ensures panel.gram[..] == DrawTiles(Base(old(Model())), PageTiles(fonts, current, Parameters()))
    {
      hide LabelTile, HalfTile, ClearTile, DrawTiles, FontsOk, SetLabels;
      ghost var base := Base(Model());
      var minPage, maxPage := Table(current).minPage, Table(current).maxPage;
      var len := if minPage == SET_1 then 3 else 2;
      RangeIsGroup(pre, current);
      StartPage(!(pre < minPage || pre > maxPage));
      ghost var ts := ClearCursorColumn(len, base);
      ts := Half((current - minPage) * 3, 0, [CURSOR], base, ts);
      ts := DrawSetLabels(base, ts);
      assert ts == SettingsTiles(fonts, current);
    }

    /** Blanks the left half of the first `len` text rows. */
    method ClearCursorColumn(len: nat, ghost base: Bytes) returns (ghost ts: seq<Tile>)
      requires Drawable() && 2 <= len <= 3 && |base| == CELLS && panel.gram[..] == base
      modifies panel, panel.gram
      ensures Drawable() && ts == ClearAll(len)
      ensures TilesOk(ts) && panel.gram[..] == DrawTiles(base, ts)
    {
      hide ClearTile, DrawTiles, FontsOk;
      ts := [];
      NoTiles(base);
      var i := 0;
      while 3 * i < len * 2 + 1
        invariant 0 <= i <= len && Drawable()
        invariant ts == ClearAll(i) && TilesOk(ts) && panel.gram[..] == DrawTiles(base, ts)
      {
        ts := ClearRow(3 * i, base, ts);
        i := i + 1;
      }
    }

    method DrawSetLabels(ghost base: Bytes, ghost ts: seq<Tile>) returns (ghost ts': seq<Tile>)
      requires Drawable() && SET_1 <= current <= SET_5
      requires |base| == CELLS && TilesOk(ts) && panel.gram[..] == DrawTiles(base, ts)
      modifies panel, panel.gram
      ensures Drawable() && ts' == ts + SetLabels(fonts, current)
      ensures TilesOk(ts') && panel.gram[..] == DrawTiles(base, ts')
    {
      hide LabelTile, DrawTiles, FontsOk;
      if Table(current).minPage == SET_1 {
        ts' := Label(0, 1, Labels.ParamSettings, 4, base, ts);
        ts' := Label(3, 1, Labels.ScreenSettings, 4, base, ts');
        ts' := Label(6, 1, Labels.Version, 2, base, ts');
      } else {
        ts' := Label(0, 1, Labels.RestoreDefaults, 4, base, ts);
        ts' := Label(3, 1, Labels.Networking, 2, base, ts');
      }
    }

    method DrawCursorColumn(len: nat, first: nat, ghost base: Bytes) returns (ghost ts: seq<Tile>)
      requires Drawable() && 2 <= len <= 3 && first <= current < first + len
      requires |base| == CELLS && panel.gram[..] == base
      modifies panel, panel.gram
      ensures Drawable() && ts == ClearOthers(len, current - first) + [CursorTile(fonts, 3 * (current - first))]
      ensures TilesOk(ts) && panel.gram[..] == DrawTiles(base, ts)
    {
      hide HalfTile, ClearTile, DrawTiles, FontsOk;
      ts := [];
      NoTiles(base);
      var i := 0;
      while 3 * i < len * 2 + 1
        invariant 0 <= i <= len && Drawable()
        invariant ts == ClearOthers(i, current - first) && panel.gram[..] == DrawTiles(base, ts)
      {
        if (current - first) * 3 != 3 * i {
          ts := ClearRow(3 * i, base, ts);
        }
        i := i + 1;
      }
      ts := Half((current - first) * 3, 0, [CURSOR], base, ts);
    }

    /** The pending increment of the selected parameter, wrapping at its limit. */
    method IncrementSelected()
      requires Bounded(Parameters()) && SENSOR_1 <= current <= OLED_2
      modifies `addFlag, `distance, `sensitivity, `power, `light, `closeTime
      ensures !addFlag && Parameters() == Increment(old(Parameters()), current) && Bounded(Parameters())
    {
      if current == SENSOR_1 {
        distance := distance + 1;
        if 200 <= distance { distance := 0; }
      } else if current == SENSOR_2 {
        sensitivity := sensitivity + 1;
        if 100 <= sensitivity { sensitivity := 0; }
      } else if current == SENSOR_3 {
        power := power + 1;
        if 200 <= power { power := 0; }
      } else if current == OLED_1 {
        light := light + 1;
        if 255 <= light { light := 0; }
      } else {
        closeTime := closeTime + 1;
        if 999 <= closeTime { closeTime := 0; }
      }
      addFlag := false;
    }

    method DrawSensorParamPage()
      requires Valid() && SENSOR_1 <= current <= SENSOR_3
      modifies `pre, `addFlag, `distance, `sensitivity, `power, `light, `closeTime, panel, panel.gram
      ensures Drawable() && pre == current && !addFlag && ParamsFit(Parameters())
      ensures Parameters() == DrawnParams(old(Model()))
      ensures panel.gram[..] == DrawTiles(Base(old(Model())), PageTiles(fonts, current, Parameters()))
    {
      hide LabelTile, HalfTile, ClearTile, NumberTile, DrawTiles, FontsOk, ClearOthers, Increment;
      ghost var base := Base(Model());
      RangeIsGroup(pre, current);
      StartPage(!(pre < SENSOR_1 || pre > SENSOR_3));
      ghost var ts := DrawCursorColumn(3, SENSOR_1, base);
      ts := Label(0, 1, Labels.Distance, 2, base, ts);
      ts := Label(3, 1, Labels.Sensitivity, 3, base, ts);
      ts := Label(6, 1, Labels.Power, 4, base, ts);
      if addFlag { IncrementSelected(); }
      ts := DrawSensorNumbers(base, ts);
      assert ts == SensorTiles(fonts, current, Parameters());
    }

    method DrawSensorNumbers(ghost base: Bytes, ghost ts: seq<Tile>) returns (ghost ts': seq<Tile>)
      requires Drawable() && ParamsFit(Parameters())
      requires |base| == CELLS && TilesOk(ts) && panel.gram[..] == DrawTiles(base, ts)
      modifies panel, panel.gram
      ensures Drawable() && ts' == ts + SensorNumbers(fonts, Parameters())
      ensures TilesOk(ts') && panel.gram[..] == DrawTiles(base, ts')
    {
      hide NumberTile, DrawTiles, FontsOk;
      ts' := Number(0, distance, base, ts);
      ts' := Number(3, sensitivity, base, ts');
      ts' := Number(6, power, base, ts');
    }

    method DrawOledParamPage()
      requires Valid() && OLED_1 <= current <= OLED_2
      modifies `pre, `addFlag, `distance, `sensitivity, `power, `light, `closeTime, panel, panel.gram
      ensures Drawable() && pre == current && !addFlag && ParamsFit(Parameters())
      ensures Parameters() == DrawnParams(old(Model()))
      ensures panel.gram[..] == DrawTiles(Base(old(Model())), PageTiles(fonts, current, Parameters()))
    {
      hide LabelTile, HalfTile, ClearTile, NumberTile, DrawTiles, FontsOk, ClearOthers, Increment;
      ghost var base := Base(Model());
      RangeIsGroup(pre, current);
      StartPage(!(pre < OLED_1 || pre > OLED_2));
      ghost var ts := DrawCursorColumn(2, OLED_1, base);
      ts := Label(0, 1, Labels.Brightness, 2, base, ts);
      ts := Label(3, 1, Labels.ScreenOffTime, 4, base, ts);
      if addFlag { IncrementSelected(); }
      ts := Number(0, light, base, ts);
      ts := Number(3, closeTime, base, ts);
      assert ts == OledTiles(fonts, current, Parameters());
    }

    /** The version, networking and confirmation pages: a label and a half-width text. */
    method DrawNoticePage()
      requires Valid() && VISION <= current
      modifies `pre, panel, panel.gram
      ensures Drawable() && pre == current && ParamsFit(Parameters())
      ensures panel.gram[..] == DrawTiles(Base(old(Model())), PageTiles(fonts, current, Parameters()))
    {
      hide LabelTile, HalfTile, DrawTiles, FontsOk;
      ghost var base := Base(Model());
      OnlyItself(pre, current);
      StartPage(pre == current);
      ghost var ts: seq<Tile> := [];
      NoTiles(base);
      if current == VISION {
        ts := Label(3, 2, Labels.VersionNumber, 3, base, ts);
        ts := Half(3, 8, [0x3A, 0x56, 0x31, 0x2E, 0x30], base, ts);
      } else if current == PROVISIONING {
        ts := Label(3, 2, Labels.NetworkingNow, 3, base, ts);
        ts := Half(3, 8, [0x2E, 0x2E, 0x2E], base, ts);
      } else {
        ts := Label(3, 2, if current == FACTORY_CONFIRM then Labels.ConfirmRestore else Labels.ConfirmChange,
                    6, base, ts);
        ts := Half(3, 14, [0x3F], base, ts);
      }
      assert ts == NoticeTiles(fonts, current);
    }

    // ---------- thread passes ----------

    /** One pass of the screen thread. */
    method ScreenPass()
      requires Valid()
      modifies this, panel, panel.gram
      ensures Valid() && Model() == DrawStep(fonts, old(Model()))
      ensures Model() == Step(fonts, old(Model()), Draw)
    {
      hide DrawTiles, PageTiles, FontsOk;
      ghost var b := Model();
      IncrementBounded(b.params, b.current);
      if keyOn {
        keyOn := false;
        if current == WELCOME { DrawWelcomePage(); }
        else if current == MAIN { DrawMainPage(); }
        else if current <= SET_5 { DrawSetPage(); }
        else if current <= SENSOR_3 { DrawSensorParamPage(); }
        else if current <= OLED_2 { DrawOledParamPage(); }
        else { DrawNoticePage(); }
      }
    }

    /** One pass of the key thread; `provision` tells whether a provisioning request goes out. */
    method KeyPass(levels: seq<bool>) returns (provision: bool)
      requires Valid()
      modifies this, pad, tim, panel
      ensures Valid() && Model() == Step(fonts, old(Model()), Sample(Keys.MaskOf(levels)))
      ensures provision == (Presses(old(Model()), Keys.MaskOf(levels)) && old(current) == SET_5
                            && Keys.Scan(old(pad.Model()), Keys.MaskOf(levels)).key == ENTER_KEY)
    {
      hide FontsOk, Keys.Scan;
      provision := false;
      var keyBit := pad.ReadPins(levels);
      var events := pad.KeyStatus(keyBit);
      if events != [] && events[0].ShortPress? {
        provision := HandleShort(events[0].key);
      }
    }

    method HandleShort(key: nat) returns (provision: bool)
      requires Valid()
      modifies this, tim, panel
      ensures Valid() && Model() == Dispatch(old(Model()), key)
      ensures provision == (key == ENTER_KEY && old(current) == SET_5)
    {
      hide FontsOk, Table, Bounded;
      ghost var g := panel.gram[..];
      tim.min1 := 0;
      keyOn := true;
      LightUp(key == ENTER_KEY && current == OLED_CONFIRM);
      provision := key == ENTER_KEY && current == SET_5;
      assert panel.gram[..] == g;
      Navigate(key);
    }

    /** Switches the panel on, and sets its contrast when the light parameter is confirmed. */
    method LightUp(confirmed: bool)
      requires panel.Valid() && Bounded(Parameters())
      modifies panel
      ensures panel.Valid() && panel.gram[..] == old(panel.gram[..])
    {
      panel.SendCmd(0xAF);
      if confirmed {
        SmallLight();
        panel.SendCmd(0x81);
        panel.SendCmd(light);
      }
    }

    lemma SmallLight()
      requires Bounded(Parameters())
      ensures light < 256
    {
    }

    /** The switch on the key. */
    method Navigate(key: nat)
      requires current < PAGE_COUNT && Bounded(Parameters()) && keyOn && tim.min1 == 0
      modifies `current, `addFlag, `distance, `sensitivity, `power, `light, `closeTime
      ensures Model() == Dispatch(old(Model()), key) && Runnable(Model()) == old(Runnable(Model()))
    {
      hide Table;
      if key == ENTER_KEY {
        if current == FACTORY_CONFIRM {
          distance, sensitivity, power, light, closeTime := 100, 50, 100, 0xEF, 30;
        }
        current := Table(current).enter;
      } else if key == UP_KEY {
        current := Table(current).up;
      } else if key == DOWN_KEY {
        if SENSOR_1 <= current <= SENSOR_3 || OLED_1 <= current <= OLED_2 {
          addFlag := true;
        } else {
          current := Table(current).down;
        }
      } else if key == MENU_KEY {
        if current == SENSOR_CONFIRM || SENSOR_1 <= current <= SENSOR_3
           || current == OLED_CONFIRM || OLED_1 <= current <= OLED_2 {
          distance, sensitivity, power, light, closeTime := 0, 0, 0, 0, 0;
        }
        current := MAIN;
      }
    }

    /** One pass of the system thread, taken as atomic. */
    method SystemPass()
      requires Valid()
      modifies this, tim, panel, panel.gram
      ensures Valid() && Model() == Step(fonts, old(Model()), System)
    {
      hide FontsOk;
      if current == WELCOME || current == MAIN { tim.min1 := 0; }
      if tim.flagMin {
        tim.flagMin := false;
        keyOn := true;
        current := MAIN;
        panel.ClearOled();
      }
    }

    /** One interrupt of the millisecond timer. */
    method TickInterrupt()
      requires Valid()
      modifies tim
      ensures Valid() && Model() == Step(fonts, old(Model()), Tick)
    {
      hide FontsOk, SysTimer.Tick;
      tim.TickHandler();
    }
  }

  lemma NoTiles(s: Bytes)
    requires |s| == CELLS
    ensures TilesOk([]) && DrawTiles(s, []) == s
  {
  }

  lemma FontsParts(f: Fonts)
    requires FontsOk(f)
    ensures Utf8.FontOk(f.full) && HalfFontOk(f.half)
  {
  }
}
