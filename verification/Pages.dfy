/** What each menu page shows, as a list of tiles, and which pages may be drawn over one another. */
module Pages {
  import opened Display
  import opened Utf8
  import opened Labels

  // Page numbers, in the order of the menu table.
  const WELCOME: nat := 0
  const MAIN: nat := 1
  const SET_1: nat := 2
  const SET_3: nat := 4
  const SET_4: nat := 5
  const SET_5: nat := 6
  const SENSOR_1: nat := 7
  const SENSOR_2: nat := 8
  const SENSOR_3: nat := 9
  const OLED_1: nat := 10
  const OLED_2: nat := 11
  const VISION: nat := 12
  const PROVISIONING: nat := 13
  const SENSOR_CONFIRM: nat := 14
  const OLED_CONFIRM: nat := 15
  const FACTORY_CONFIRM: nat := 16
  const PAGE_COUNT: nat := 17

  datatype Params = Params(closeTime: nat, distance: nat, sensitivity: nat, power: nat, light: nat)

  /** Half-width font: `code` lists the characters, zero beyond the last. */
  datatype HalfFont = HalfFont(code: seq<bv8>, glyphs: Bytes)

  datatype Fonts = Fonts(full: Font, half: HalfFont)

  predicate HalfFontOk(h: HalfFont) {
    && |h.code| == 100 && |h.glyphs| >= 160
    && forall i :: 0 <= i < 100 && h.code[i] != 0 ==> 16 * i + 16 <= |h.glyphs|
  }

  predicate FontsOk(f: Fonts) {
    FontOk(f.full) && HalfFontOk(f.half)
  }

  /** Entry j is the last one equal to c. */
  predicate LastAt(code: seq<bv8>, c: bv8, j: nat) {
    j < |code| && code[j] == c && forall i :: j < i < |code| ==> code[i] != c
  }

  /** The block of the last of the first n table entries equal to c (later matches overwrite earlier ones). */
  function HalfGlyph(h: HalfFont, c: bv8, n: nat): (g: Bytes)
    requires HalfFontOk(h) && n <= 100 && c != 0
    ensures |g| == 16
    ensures (forall j :: 0 <= j < n ==> h.code[j] != c) ==> g == Blank(16)
    ensures forall j: nat :: j < n && LastAt(h.code[..n], c, j) ==> g == h.glyphs[16 * j..16 * j + 16]
  {
    if n == 0 then Blank(16)
    else if h.code[n - 1] == c then
      LastIsLast(h.code[..n], c);
      h.glyphs[16 * (n - 1)..16 * (n - 1) + 16]
    else
      assert h.code[..n][..n - 1] == h.code[..n - 1];
      LastEarlier(h.code[..n], c);
      HalfGlyph(h, c, n - 1)
  }

  lemma LastIsLast(code: seq<bv8>, c: bv8)
    requires code != [] && code[|code| - 1] == c
    ensures forall j: nat :: LastAt(code, c, j) <==> j == |code| - 1
  {
    forall j: nat | j < |code| - 1 ensures !LastAt(code, c, j) {
      assert code[|code| - 1] == c;
    }
  }

  lemma LastEarlier(code: seq<bv8>, c: bv8)
    requires code != [] && code[|code| - 1] != c
    ensures forall j: nat :: LastAt(code, c, j) ==> LastAt(code[..|code| - 1], c, j)
  {
    forall j: nat | LastAt(code, c, j) ensures LastAt(code[..|code| - 1], c, j) {
      var front := code[..|code| - 1];
      assert forall i :: j < i < |front| ==> front[i] == code[i];
    }
  }

  function HalfGlyphs(h: HalfFont, s: seq<bv8>): (g: Bytes)
    requires HalfFontOk(h) && forall i :: 0 <= i < |s| ==> s[i] != 0
    ensures |g| == 16 * |s|
  {
    if s == [] then [] else HalfGlyphs(h, s[..|s| - 1]) + HalfGlyph(h, s[|s| - 1], 100)
  }

  /** The four digits `val_to_str` picks. */
  function Digits(v: nat): (d: seq<nat>)
    requires v < 65536
    ensures |d| == 4 && forall i :: 0 <= i < 4 ==> d[i] < 10
  {
    [v / 10000, v % 1000 / 100, v % 100 / 10, v % 10]
  }

  function DigitGlyphs(h: HalfFont, d: seq<nat>): (g: Bytes)
    requires HalfFontOk(h) && forall i :: 0 <= i < |d| ==> d[i] < 10
    ensures |g| == 16 * |d|
  {
    if d == [] then []
    else DigitGlyphs(h, d[..|d| - 1]) + h.glyphs[16 * d[|d| - 1]..16 * d[|d| - 1] + 16]
  }

  /** Block k of the buffer belongs to character k. */
  lemma {:induction false} HalfGlyphsAt(h: HalfFont, s: seq<bv8>, k: nat, b: nat)
    requires HalfFontOk(h) && (forall i :: 0 <= i < |s| ==> s[i] != 0) && k < |s| && b < 16
    ensures HalfGlyphs(h, s)[16 * k + b] == HalfGlyph(h, s[k], 100)[b]
  {
    hide HalfGlyph, HalfFontOk;
    if k < |s| - 1 { HalfGlyphsAt(h, s[..|s| - 1], k, b); }
  }

  /** Block k of the buffer is the font block of digit k. */
  lemma {:induction false} DigitGlyphsAt(h: HalfFont, d: seq<nat>, k: nat, b: nat)
    requires HalfFontOk(h) && (forall i :: 0 <= i < |d| ==> d[i] < 10) && k < |d| && b < 16
    ensures 16 * d[k] + b < |h.glyphs| && DigitGlyphs(h, d)[16 * k + b] == h.glyphs[16 * d[k] + b]
  {
    if k < |d| - 1 { DigitGlyphsAt(h, d[..|d| - 1], k, b); }
  }

  /** The digits read back as a number exactly below 1000: the first one is the ten-thousands digit. */
  lemma DigitsDecodeIff(v: nat)
    requires v < 65536
    ensures var d := Digits(v);
            1000 * d[0] + 100 * d[1] + 10 * d[2] + d[3] == v <==> v < 1000
  {
    var m := v % 1000;
    HundredsDigits(m);
    LastDigits(v);
    assert v == 1000 * (v / 1000) + m;
    if v >= 1000 { assert v / 1000 > v / 10000; }
  }

  lemma HundredsDigits(m: nat)
    requires m < 1000
    ensures m == 100 * (m / 100) + 10 * (m % 100 / 10) + m % 10
  {
    assert m == 100 * (m / 100) + m % 100;
    assert m % 100 == 10 * (m % 100 / 10) + m % 100 % 10;
  }

  lemma Remainder100(v: nat, k: nat, r: nat)
    requires v == 100 * k + r && r < 100
    ensures v % 100 == r
  {
  }

  lemma Remainder10(v: nat, k: nat, r: nat)
    requires v == 10 * k + r && r < 10
    ensures v % 10 == r
  {
  }

  lemma LastDigits(v: nat)
    ensures v % 100 == v % 1000 % 100 && v % 10 == v % 1000 % 10
  {
    var q, m := v / 1000, v % 1000;
    Remainder100(v, 10 * q + m / 100, m % 100);
    Remainder10(v, 100 * q + m / 10, m % 10);
  }

  // ---------- tiles ----------

  const CURSOR: bv8 := 0x3E

  function LabelTile(f: Fonts, page: nat, column: nat, text: Text, len: nat): (t: Tile)
    requires FontsOk(f) && page + 2 <= PAGES && len <= 16 && 8 * column + 16 * len <= COLUMNS
    ensures TileOk(t)
  {
    var cs := Shown(Chars(text), len);
    Tile(page, column, 16, |cs|, GlyphsOf(f.full, cs) + Blank(512 - 32 * |cs|))
  }

  function HalfTile(f: Fonts, page: nat, column: nat, s: seq<bv8>): (t: Tile)
    requires FontsOk(f) && page + 2 <= PAGES && 8 * column + 8 * |s| <= COLUMNS
    requires forall i :: 0 <= i < |s| ==> s[i] != 0
    ensures TileOk(t)
  {
    Tile(page, column, 8, |s|, HalfGlyphs(f.half, s) + Blank(512 - 16 * |s|))
  }

  function ClearTile(row: nat): (t: Tile)
    requires row + 2 <= PAGES
    ensures TileOk(t)
  {
    Tile(row, 0, 8, 1, Blank(16))
  }

  function CursorTile(f: Fonts, row: nat): (t: Tile)
    requires FontsOk(f) && row + 2 <= PAGES
    ensures TileOk(t)
  {
    HalfTile(f, row, 0, [CURSOR])
  }

  function NumberTile(f: Fonts, row: nat, v: nat): (t: Tile)
    requires FontsOk(f) && row + 2 <= PAGES && v < 65536
    ensures TileOk(t)
  {
    Tile(row, 10, 8, 4, DigitGlyphs(f.half, Digits(v)))
  }

  // ---------- pages ----------

  /** The cursor column: rows 0, 3, ... of the first n, blanked except that of the selected one. */
  function ClearOthers(n: nat, selected: nat): (ts: seq<Tile>)
    requires n <= 3
    ensures TilesOk(ts)
  {
    if n == 0 then [] else ClearOthers(n - 1, selected) + if n - 1 == selected then [] else [ClearTile(3 * (n - 1))]
  }

  function ClearAll(n: nat): (ts: seq<Tile>)
    requires n <= 3
    ensures TilesOk(ts)
  {
    if n == 0 then [] else ClearAll(n - 1) + [ClearTile(3 * (n - 1))]
  }

  predicate ParamsFit(p: Params) {
    p.closeTime < 65536 && p.distance < 256 && p.sensitivity < 256 && p.power < 256 && p.light < 256
  }

  function SetLabels(f: Fonts, page: nat): (ts: seq<Tile>)
    requires FontsOk(f)
    ensures TilesOk(ts)
  {
    if page <= SET_3 then
      [LabelTile(f, 0, 1, ParamSettings, 4), LabelTile(f, 3, 1, ScreenSettings, 4), LabelTile(f, 6, 1, Version, 2)]
    else
      [LabelTile(f, 0, 1, RestoreDefaults, 4), LabelTile(f, 3, 1, Networking, 2)]
  }

  function SensorLabels(f: Fonts): (ts: seq<Tile>)
    requires FontsOk(f)
    ensures TilesOk(ts)
  {
    [LabelTile(f, 0, 1, Distance, 2), LabelTile(f, 3, 1, Sensitivity, 3), LabelTile(f, 6, 1, Power, 4)]
  }

  function SensorNumbers(f: Fonts, p: Params): (ts: seq<Tile>)
    requires FontsOk(f) && ParamsFit(p)
    ensures TilesOk(ts)
  {
    [NumberTile(f, 0, p.distance), NumberTile(f, 3, p.sensitivity), NumberTile(f, 6, p.power)]
  }

  function OledLabels(f: Fonts): (ts: seq<Tile>)
    requires FontsOk(f)
    ensures TilesOk(ts)
  {
    [LabelTile(f, 0, 1, Brightness, 2), LabelTile(f, 3, 1, ScreenOffTime, 4)]
  }

  function OledNumbers(f: Fonts, p: Params): (ts: seq<Tile>)
    requires FontsOk(f) && ParamsFit(p)
    ensures TilesOk(ts)
  {
    [NumberTile(f, 0, p.light), NumberTile(f, 3, p.closeTime)]
  }

  /** Pages with one label and a half-width text beside it. */
  function NoticeTiles(f: Fonts, page: nat): (ts: seq<Tile>)
    requires FontsOk(f)
    ensures TilesOk(ts)
  {
    if page == VISION then
      [LabelTile(f, 3, 2, VersionNumber, 3), HalfTile(f, 3, 8, [0x3A, 0x56, 0x31, 0x2E, 0x30])]
    else if page == PROVISIONING then
      [LabelTile(f, 3, 2, NetworkingNow, 3), HalfTile(f, 3, 8, [0x2E, 0x2E, 0x2E])]
    else
      [LabelTile(f, 3, 2, if page == FACTORY_CONFIRM then ConfirmRestore else ConfirmChange, 6),
       HalfTile(f, 3, 14, [0x3F])]
  }

  function SettingsTiles(f: Fonts, page: nat): (ts: seq<Tile>)
    requires FontsOk(f) && SET_1 <= page <= SET_5
    ensures TilesOk(ts)
  {
    (if page <= SET_3 then ClearAll(3) + [CursorTile(f, 3 * (page - SET_1))]
     else ClearAll(2) + [CursorTile(f, 3 * (page - SET_4))])
    + SetLabels(f, page)
  }

  function SensorTiles(f: Fonts, page: nat, p: Params): (ts: seq<Tile>)
    requires FontsOk(f) && SENSOR_1 <= page <= SENSOR_3 && ParamsFit(p)
    ensures TilesOk(ts)
  {
    ClearOthers(3, page - SENSOR_1) + [CursorTile(f, 3 * (page - SENSOR_1))] + SensorLabels(f) + SensorNumbers(f, p)
  }

  function OledTiles(f: Fonts, page: nat, p: Params): (ts: seq<Tile>)
    requires FontsOk(f) && OLED_1 <= page <= OLED_2 && ParamsFit(p)
    ensures TilesOk(ts)
  {
    ClearOthers(2, page - OLED_1) + [CursorTile(f, 3 * (page - OLED_1))] + OledLabels(f) + OledNumbers(f, p)
  }

  /** Everything a page draws, in drawing order. */
  function PageTiles(f: Fonts, page: nat, p: Params): (ts: seq<Tile>)
    requires FontsOk(f) && page < PAGE_COUNT && ParamsFit(p)
    ensures TilesOk(ts)
  {
    if page == WELCOME then [LabelTile(f, 2, 4, Welcome, 4), LabelTile(f, 5, 3, PressConfirm, 5)]
    else if page == MAIN then
      [LabelTile(f, 0, 0, LivingRoom, 2), LabelTile(f, 3, 0, Room, 4), LabelTile(f, 6, 0, Kitchen, 4)]
    else if page <= SET_5 then SettingsTiles(f, page)
    else if page <= SENSOR_3 then SensorTiles(f, page, p)
    else if page <= OLED_2 then OledTiles(f, page, p)
    else NoticeTiles(f, page)
  }

  /** The picture of a page drawn onto a blank screen. */
  function Render(f: Fonts, page: nat, p: Params): (s: Bytes)
    requires FontsOk(f) && page < PAGE_COUNT && ParamsFit(p)
    ensures |s| == CELLS
  {
    DrawTiles(Blank(CELLS), PageTiles(f, page, p))
  }

  /** Whether the driver skips clearing when it goes from page `pre` to page `cur`. */
  predicate SameGroup(pre: nat, cur: nat) {
    || pre == cur
    || (SET_1 <= pre <= SET_3 && SET_1 <= cur <= SET_3)
    || (SET_4 <= pre <= SET_5 && SET_4 <= cur <= SET_5)
    || (SENSOR_1 <= pre <= SENSOR_3 && SENSOR_1 <= cur <= SENSOR_3)
    || (OLED_1 <= pre <= OLED_2 && OLED_1 <= cur <= OLED_2)
  }

  // ---------- areas ----------

  datatype Area = Area(page: nat, column: nat, span: nat)

  function AreaOf(t: Tile): Area {
    Area(t.page, t.column, t.width * t.count)
  }

  function Areas(ts: seq<Tile>): set<Area> {
    set t | t in ts :: AreaOf(t)
  }

  lemma AreasConcat(a: seq<Tile>, b: seq<Tile>)
    ensures Areas(a + b) == Areas(a) + Areas(b)
  {
    forall x | x in Areas(a) + Areas(b) ensures x in Areas(a + b) {
      var t :| (t in a || t in b) && AreaOf(t) == x;
      assert t in a + b;
    }
    forall x | x in Areas(a + b) ensures x in Areas(a) + Areas(b) {
      var t :| t in a + b && AreaOf(t) == x;
      assert t in a || t in b;
    }
  }

  lemma AreasWithin(a: seq<Tile>, b: seq<Tile>)
    requires Areas(a) <= Areas(b)
    ensures AreaWithin(a, b)
  {
    forall i | 0 <= i < |a| ensures Matched(a[i], b) {
      assert AreaOf(a[i]) in Areas(a);
      var u :| u in b && AreaOf(u) == AreaOf(a[i]);
      var j :| 0 <= j < |b| && b[j] == u;
      assert SameArea(a[i], b[j]);
    }
  }

  /** The cursor column as a set of areas. */
  function CursorAreas(n: nat): set<Area>
    requires n <= 3
  {
    if n == 0 then {} else CursorAreas(n - 1) + {Area(3 * (n - 1), 0, 8)}
  }

  lemma OneArea(t: Tile)
    ensures Areas([t]) == {AreaOf(t)}
  {
    assert t in [t];
  }

  lemma {:induction false} ClearAllAreas(n: nat)
    requires n <= 3
    ensures Areas(ClearAll(n)) == CursorAreas(n)
  {
    if n > 0 {
      ClearAllAreas(n - 1);
      AreasConcat(ClearAll(n - 1), [ClearTile(3 * (n - 1))]);
      OneArea(ClearTile(3 * (n - 1)));
    }
  }

  lemma ClearTileArea(row: nat)
    requires row + 2 <= PAGES
    ensures AreaOf(ClearTile(row)) == Area(row, 0, 8)
  {
  }

  /** Blanking the other rows and drawing the cursor covers the whole cursor column. */
  lemma {:induction false} ClearOthersAreas(n: nat, selected: nat)
    requires n <= 3
    ensures Areas(ClearOthers(n, selected)) + (if selected < n then {Area(3 * selected, 0, 8)} else {})
         == CursorAreas(n)
  {
    if n > 0 {
      ClearOthersAreas(n - 1, selected);
      if n - 1 != selected {
        AreasConcat(ClearOthers(n - 1, selected), [ClearTile(3 * (n - 1))]);
        OneArea(ClearTile(3 * (n - 1)));
        ClearTileArea(3 * (n - 1));
        hide Areas, AreaOf, ClearTile;
      } else {
        assert ClearOthers(n - 1, selected) + [] == ClearOthers(n - 1, selected);
      }
    }
  }

  lemma {:induction false} CursorAreaIn(n: nat, selected: nat)
    requires selected < n <= 3
    ensures Area(3 * selected, 0, 8) in CursorAreas(n)
  {
    if selected < n - 1 { CursorAreaIn(n - 1, selected); }
  }

  lemma SetAreas(f: Fonts, page: nat, n: nat, row: nat)
    requires FontsOk(f) && row < n <= 3
    ensures TilesOk(ClearAll(n) + [CursorTile(f, 3 * row)] + SetLabels(f, page))
    ensures Areas(ClearAll(n) + [CursorTile(f, 3 * row)] + SetLabels(f, page))
         == CursorAreas(n) + Areas(SetLabels(f, page))
  {
    ClearAllAreas(n);
    CursorAreaIn(n, row);
    AreasConcat(ClearAll(n), [CursorTile(f, 3 * row)]);
    OneArea(CursorTile(f, 3 * row));
    AreasConcat(ClearAll(n) + [CursorTile(f, 3 * row)], SetLabels(f, page));
  }

  lemma SelectedAreas(f: Fonts, n: nat, row: nat)
    requires FontsOk(f) && row < n <= 3
    ensures TilesOk(ClearOthers(n, row) + [CursorTile(f, 3 * row)])
    ensures Areas(ClearOthers(n, row) + [CursorTile(f, 3 * row)]) == CursorAreas(n)
  {
    ClearOthersAreas(n, row);
    AreasConcat(ClearOthers(n, row), [CursorTile(f, 3 * row)]);
    OneArea(CursorTile(f, 3 * row));
  }

  lemma NumberAreas(f: Fonts, p: Params)
    requires FontsOk(f) && ParamsFit(p)
    ensures Areas(SensorNumbers(f, p)) == {Area(0, 10, 32), Area(3, 10, 32), Area(6, 10, 32)}
    ensures Areas(OledNumbers(f, p)) == {Area(0, 10, 32), Area(3, 10, 32)}
  {
    hide DigitGlyphs, Digits;
    var a, b, c := NumberTile(f, 0, p.distance), NumberTile(f, 3, p.sensitivity), NumberTile(f, 6, p.power);
    ThreeAreas(a, b, c);
    TwoAreas(NumberTile(f, 0, p.light), NumberTile(f, 3, p.closeTime));
  }

  lemma TwoAreas(a: Tile, b: Tile)
    ensures Areas([a, b]) == {AreaOf(a), AreaOf(b)}
  {
    AreasConcat([a], [b]);
    assert [a] + [b] == [a, b];
    OneArea(a);
    OneArea(b);
  }

  lemma ThreeAreas(a: Tile, b: Tile, c: Tile)
    ensures Areas([a, b, c]) == {AreaOf(a), AreaOf(b), AreaOf(c)}
  {
    TwoAreas(a, b);
    AreasConcat([a, b], [c]);
    assert [a, b] + [c] == [a, b, c];
    OneArea(c);
  }

  lemma SetPage(f: Fonts, page: nat, p: Params)
    requires FontsOk(f) && SET_1 <= page <= SET_5 && ParamsFit(p)
    ensures PageTiles(f, page, p) ==
      if page <= SET_3 then ClearAll(3) + [CursorTile(f, 3 * (page - SET_1))] + SetLabels(f, page)
      else ClearAll(2) + [CursorTile(f, 3 * (page - SET_4))] + SetLabels(f, page)
  {
    hide ClearAll, CursorTile, SetLabels;
  }

  lemma SetPageAreas(f: Fonts, page: nat, p: Params)
    requires FontsOk(f) && SET_1 <= page <= SET_5 && ParamsFit(p)
    ensures Areas(PageTiles(f, page, p)) == CursorAreas(if page <= SET_3 then 3 else 2) + Areas(SetLabels(f, page))
  {
    hide PageTiles, ClearAll, CursorTile, SetLabels, Areas, CursorAreas, FontsOk, ParamsFit, TileOk;
    SetPage(f, page, p);
    if page <= SET_3 { SetAreas(f, page, 3, page - SET_1); } else { SetAreas(f, page, 2, page - SET_4); }
  }

  lemma ListAreas(head: seq<Tile>, labels: seq<Tile>, numbers: seq<Tile>)
    ensures Areas(head + labels + numbers) == Areas(head) + Areas(labels) + Areas(numbers)
  {
    AreasConcat(head, labels);
    AreasConcat(head + labels, numbers);
  }

  lemma SensorPage(f: Fonts, page: nat, p: Params)
    requires FontsOk(f) && SENSOR_1 <= page <= SENSOR_3 && ParamsFit(p)
    ensures var row := page - SENSOR_1;
            PageTiles(f, page, p)
            == (ClearOthers(3, row) + [CursorTile(f, 3 * row)]) + SensorLabels(f) + SensorNumbers(f, p)
  {
    hide ClearOthers, CursorTile, SensorLabels, SensorNumbers;
  }

  lemma SensorAreas(f: Fonts, page: nat, p: Params)
    requires FontsOk(f) && SENSOR_1 <= page <= SENSOR_3 && ParamsFit(p)
    ensures Areas(PageTiles(f, page, p))
         == CursorAreas(3) + Areas(SensorLabels(f)) + {Area(0, 10, 32), Area(3, 10, 32), Area(6, 10, 32)}
  {
    hide PageTiles, ClearOthers, CursorTile, SensorLabels, SensorNumbers, Areas, CursorAreas;
    hide FontsOk, ParamsFit, TileOk;
    var row := page - SENSOR_1;
    SensorPage(f, page, p);
    SelectedAreas(f, 3, row);
    NumberAreas(f, p);
    ListAreas(ClearOthers(3, row) + [CursorTile(f, 3 * row)], SensorLabels(f), SensorNumbers(f, p));
  }

  lemma OledPage(f: Fonts, page: nat, p: Params)
    requires FontsOk(f) && OLED_1 <= page <= OLED_2 && ParamsFit(p)
    ensures var row := page - OLED_1;
            PageTiles(f, page, p)
            == (ClearOthers(2, row) + [CursorTile(f, 3 * row)]) + OledLabels(f) + OledNumbers(f, p)
  {
    hide ClearOthers, CursorTile, OledLabels, OledNumbers;
  }

  lemma OledAreas(f: Fonts, page: nat, p: Params)
    requires FontsOk(f) && OLED_1 <= page <= OLED_2 && ParamsFit(p)
    ensures Areas(PageTiles(f, page, p)) == CursorAreas(2) + Areas(OledLabels(f)) + {Area(0, 10, 32), Area(3, 10, 32)}
  {
    hide PageTiles, ClearOthers, CursorTile, OledLabels, OledNumbers, Areas, CursorAreas, FontsOk, ParamsFit, TileOk;
    var row := page - OLED_1;
    OledPage(f, page, p);
    SelectedAreas(f, 2, row);
    NumberAreas(f, p);
    ListAreas(ClearOthers(2, row) + [CursorTile(f, 3 * row)], OledLabels(f), OledNumbers(f, p));
  }

  /** Pages without parameters look the same whatever the parameters are. */
  lemma PlainPage(f: Fonts, page: nat, p: Params, q: Params)
    requires FontsOk(f) && page < PAGE_COUNT && ParamsFit(p) && ParamsFit(q) && !(SENSOR_1 <= page <= OLED_2)
    ensures PageTiles(f, page, p) == PageTiles(f, page, q)
  {
    hide SettingsTiles, NoticeTiles, LabelTile, HalfTile;
  }

  lemma SetLabelsShared(f: Fonts, pre: nat, cur: nat)
    requires FontsOk(f) && (pre <= SET_3 <==> cur <= SET_3)
    ensures SetLabels(f, pre) == SetLabels(f, cur)
  {
    hide LabelTile;
  }

  /** Two pages that are drawn over each other without clearing cover the same cells. */
  lemma GroupAreas(f: Fonts, pre: nat, p: Params, cur: nat, q: Params)
    requires FontsOk(f) && pre < PAGE_COUNT && cur < PAGE_COUNT && ParamsFit(p) && ParamsFit(q) && SameGroup(pre, cur)
    ensures Areas(PageTiles(f, pre, p)) == Areas(PageTiles(f, cur, q))
  {
    hide PageTiles, Areas, SetLabels, SensorLabels, OledLabels, CursorAreas, FontsOk, ParamsFit;
    if SET_1 <= pre <= SET_5 {
      SetPageAreas(f, pre, p);
      SetPageAreas(f, cur, q);
      SetLabelsShared(f, pre, cur);
    } else if SENSOR_1 <= pre <= SENSOR_3 {
      SensorAreas(f, pre, p);
      SensorAreas(f, cur, q);
    } else if OLED_1 <= pre <= OLED_2 {
      OledAreas(f, pre, p);
      OledAreas(f, cur, q);
    } else {
      PlainPage(f, pre, p, q);
    }
  }

  /** Within a group, drawing over the old picture equals drawing onto a blank screen. */
  lemma IncrementalEqualsFresh(f: Fonts, pre: nat, p: Params, cur: nat, q: Params)
    requires FontsOk(f) && pre < PAGE_COUNT && cur < PAGE_COUNT && ParamsFit(p) && ParamsFit(q) && SameGroup(pre, cur)
    ensures DrawTiles(Render(f, pre, p), PageTiles(f, cur, q)) == Render(f, cur, q)
  {
    hide PageTiles, DrawTiles, SameGroup, Areas;
    GroupAreas(f, pre, p, cur, q);
    AreasWithin(PageTiles(f, pre, p), PageTiles(f, cur, q));
    RedrawEqualsFresh(Blank(CELLS), PageTiles(f, pre, p), PageTiles(f, cur, q));
  }
}
