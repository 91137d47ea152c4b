/** What each page shows, cell by cell: which glyph, digit or gap stands where in the display memory. */
module Screens {
  import opened Octets
  import opened Display
  import opened Utf8
  import opened Labels
  import opened Pages
  import opened Board
  import opened Glyphs
  import Increments

  // ---------- what it means to stand somewhere ----------

  function Cell(s: Bytes, y: nat, x: nat): Octet
    requires |s| == CELLS && y < 8 && x < 128
  {
    s[128 * y + x]
  }

  /** A 16-column block in two rows of cells, the upper half first. */
  predicate FullAt(s: Bytes, row: nat, left: nat, block: Bytes)
    requires |s| == CELLS && row + 2 <= 8 && left + 16 <= 128 && |block| == 32
  {
    forall b :: 0 <= b < 32 ==> Cell(s, row + b / 16, left + b % 16) == block[b]
  }

  /** An 8-column block in two rows of cells. */
  predicate HalfAt(s: Bytes, row: nat, left: nat, block: Bytes)
    requires |s| == CELLS && row + 2 <= 8 && left + 8 <= 128 && |block| == 16
  {
    forall b :: 0 <= b < 16 ==> Cell(s, row + b / 8, left + b % 8) == block[b]
  }

  /** The glyphs of a title's characters, side by side. */
  ghost predicate ShowsText(f: Fonts, s: Bytes, row: nat, column: nat, title: string)
    requires FontsOk(f) && |s| == CELLS && row + 2 <= 8 && 8 * column + 16 * |title| <= 128
  {
    forall i, c :: 0 <= i < |title| && Reads(c, title[i]) ==>
      FullAt(s, row, 8 * column + 16 * i, GlyphOf(f.full, c))
  }

  /** The half-width glyph of one ASCII character. */
  predicate ShowsHalf(f: Fonts, s: Bytes, row: nat, left: nat, code: bv8)
    requires FontsOk(f) && |s| == CELLS && row + 2 <= 8 && left + 8 <= 128 && code != 0
  {
    HalfAt(s, row, left, HalfGlyph(f.half, code, 100))
  }

  predicate Gap(s: Bytes, row: nat)
    requires |s| == CELLS && row + 2 <= 8
  {
    HalfAt(s, row, 0, Blank(16))
  }

  /** Decimal digit i of a number below 10000, the thousands first. */
  function Decimal(v: nat, i: nat): (d: nat)
    ensures d < 10
  {
    if i == 0 then v / 1000 % 10 else if i == 1 then v / 100 % 10 else if i == 2 then v / 10 % 10 else v % 10
  }

  /** The four decimal digits of a number, in columns 80 to 111. */
  predicate ShowsNumber(f: Fonts, s: Bytes, row: nat, v: nat)
    requires FontsOk(f) && |s| == CELLS && row + 2 <= 8
  {
    forall i {:trigger Decimal(v, i)} :: 0 <= i < 4 ==>
      HalfAt(s, row, 80 + 8 * i, f.half.glyphs[16 * Decimal(v, i)..16 * Decimal(v, i) + 16])
  }

  /** The cursor stands on the selected one of the first n entries, and on no other. */
  predicate ShowsCursor(f: Fonts, s: Bytes, n: nat, selected: nat)
    requires FontsOk(f) && |s| == CELLS && n <= 3
  {
    forall r {:trigger Gap(s, 3 * r)} :: 0 <= r < n ==>
      if r == selected then ShowsHalf(f, s, 3 * r, 0, 0x3E) else Gap(s, 3 * r)
  }

  // ---------- the last tile on a cell decides ----------

  predicate Apart(a: Area, b: Area) {
    || a.page + 2 <= b.page || b.page + 2 <= a.page
    || 8 * a.column + a.span <= 8 * b.column || 8 * b.column + b.span <= 8 * a.column
  }

  predicate OnTop(ts: seq<Tile>, i: nat) {
    i < |ts| && forall j :: i < j < |ts| ==> Apart(AreaOf(ts[i]), AreaOf(ts[j]))
  }

  lemma ApartCell(t: Tile, u: Tile, c: nat, q: nat, dx: nat)
    requires TileOk(t) && c < t.count && q < 2 && dx < t.width && Apart(AreaOf(t), AreaOf(u))
    ensures !InTile(u, u.count, CellOf(t, c, q, dx))
  {
    CellSplit(t, c, q, dx);
    RowBounds(t, c);
    hide CellOf;
  }

  lemma UncoveredKept(s: Bytes, ts: seq<Tile>, k: nat)
    requires |s| == CELLS && TilesOk(ts) && k < CELLS
    requires forall j :: 0 <= j < |ts| ==> !InTile(ts[j], ts[j].count, k)
    ensures DrawTiles(s, ts)[k] == s[k]
  {
    hide InTile, DrawTiles, Paint, Covered, AllOps, TileOk;
    TilesCover(ts, k);
    DrawTilesIsPaint(s, ts);
    PaintCell(s, s, AllOps(ts), k);
  }

  /** A cell of a tile that no later tile overlaps holds that tile's byte. */
  lemma CellShown(s: Bytes, ts: seq<Tile>, i: nat, c: nat, q: nat, dx: nat)
    requires |s| == CELLS && TilesOk(ts) && OnTop(ts, i) && c < ts[i].count && q < 2 && dx < ts[i].width
    ensures CellOf(ts[i], c, q, dx) < CELLS && DataIndex(ts[i], c, q, dx) < |ts[i].data|
    ensures DrawTiles(s, ts)[CellOf(ts[i], c, q, dx)] == ts[i].data[DataIndex(ts[i], c, q, dx)]
  {
    var a, t, b := ts[..i], ts[i], ts[i + 1..];
    hide *;
    SplitTiles(ts, i);
    var below := DrawTiles(s, a);
    SingleTile(below, t);
    DrawTilesConcat(s, a, [t]);
    DrawTilesConcat(s, a + [t], b);
    TileCell(below, t, t.count, c, q, dx);
    OthersMiss(ts, i, c, q, dx);
    UncoveredKept(DrawTiles(s, a + [t]), b, CellOf(t, c, q, dx));
  }

  lemma SplitTiles(ts: seq<Tile>, i: nat)
    requires TilesOk(ts) && i < |ts|
    ensures ts == (ts[..i] + [ts[i]]) + ts[i + 1..]
    ensures TilesOk(ts[..i]) && TilesOk([ts[i]]) && TilesOk(ts[i + 1..]) && TileOk(ts[i])
  {
  }

  lemma OthersMiss(ts: seq<Tile>, i: nat, c: nat, q: nat, dx: nat)
    requires OnTop(ts, i) && TileOk(ts[i]) && c < ts[i].count && q < 2 && dx < ts[i].width
    ensures var b := ts[i + 1..];
            forall j :: 0 <= j < |b| ==> !InTile(b[j], b[j].count, CellOf(ts[i], c, q, dx))
  {
    var b := ts[i + 1..];
    hide InTile, CellOf, TileOk, Apart, AreaOf;
    forall j | 0 <= j < |b| ensures !InTile(b[j], b[j].count, CellOf(ts[i], c, q, dx)) {
      assert b[j] == ts[i + 1 + j];
      ApartCell(ts[i], b[j], c, q, dx);
    }
  }

  lemma SingleTile(s: Bytes, t: Tile)
    requires |s| == CELLS && TileOk(t)
    ensures TilesOk([t]) && AllFit(TileOps(t, t.count), CELLS)
    ensures DrawTiles(s, [t]) == DrawTile(s, t) == Paint(s, TileOps(t, t.count))
  {
    hide TileOk, Paint;
    TileOpsFit(t, t.count);
    assert [t][..0] == [];
    assert DrawTiles(s, [t][..0]) == s;
  }

  // ---------- one tile of each kind ----------

  lemma FullBounds(t: Tile, c: nat)
    requires TileOk(t) && c < t.count && t.width == 16
    ensures t.page + 2 <= 8 && 8 * t.column + 16 * c + 16 <= 128
  {
    RowBounds(t, c);
  }

  lemma FullIndex(t: Tile, c: nat, q: nat, dx: nat)
    requires t.width == 16
    ensures CellOf(t, c, q, dx) == 128 * (t.page + q) + (8 * t.column + 16 * c + dx)
    ensures DataIndex(t, c, q, dx) == 32 * c + (16 * q + dx)
  {
  }

  lemma HalfBounds(t: Tile, c: nat)
    requires TileOk(t) && c < t.count && t.width == 8
    ensures t.page + 2 <= 8 && 8 * t.column + 8 * c + 8 <= 128
  {
    RowBounds(t, c);
  }

  lemma HalfIndex(t: Tile, c: nat, q: nat, dx: nat)
    requires t.width == 8
    ensures CellOf(t, c, q, dx) == 128 * (t.page + q) + (8 * t.column + 8 * c + dx)
    ensures DataIndex(t, c, q, dx) == 16 * c + (8 * q + dx)
  {
  }

  lemma Slice(data: Bytes, from: nat, n: nat, b: nat)
    requires from + n <= |data| && b < n
    ensures data[from..from + n][b] == data[from + b]
  {
  }

  lemma CellIs(s: Bytes, y: nat, x: nat)
    requires |s| == CELLS && y < 8 && x < 128
    ensures 128 * y + x < |s| && Cell(s, y, x) == s[128 * y + x]
  {
  }

  lemma FullCell(s: Bytes, ts: seq<Tile>, i: nat, c: nat, block: Bytes, q: nat, dx: nat)
    requires |s| == CELLS && TilesOk(ts) && OnTop(ts, i) && c < ts[i].count && ts[i].width == 16 && |block| == 32
    requires 32 * ts[i].count <= |ts[i].data| && ts[i].data[32 * c..32 * c + 32] == block
    requires q < 2 && dx < 16 && ts[i].page + 2 <= 8 && 8 * ts[i].column + 16 * c + 16 <= 128
    ensures Cell(DrawTiles(s, ts), ts[i].page + q, 8 * ts[i].column + 16 * c + dx) == block[16 * q + dx]
  {
    var t, from, y, x := ts[i], 32 * c, ts[i].page + q, 8 * ts[i].column + 16 * c + dx;
    hide *;
    CellShown(s, ts, i, c, q, dx);
    FullIndex(t, c, q, dx);
    Slice(t.data, from, 32, 16 * q + dx);
    CellIs(DrawTiles(s, ts), y, x);
  }

  lemma FullByte(s: Bytes, ts: seq<Tile>, i: nat, c: nat, block: Bytes, b: nat)
    requires |s| == CELLS && TilesOk(ts) && OnTop(ts, i) && c < ts[i].count && ts[i].width == 16 && |block| == 32
    requires 32 * ts[i].count <= |ts[i].data| && ts[i].data[32 * c..32 * c + 32] == block
    requires b < 32 && ts[i].page + 2 <= 8 && 8 * ts[i].column + 16 * c + 16 <= 128
    ensures Cell(DrawTiles(s, ts), ts[i].page + b / 16, 8 * ts[i].column + 16 * c + b % 16) == block[b]
  {
    var q, dx := b / 16, b % 16;
    hide *;
    assert 16 * q + dx == b;
    FullCell(s, ts, i, c, block, q, dx);
  }

  lemma FullBlock(s: Bytes, ts: seq<Tile>, i: nat, c: nat, block: Bytes)
    requires |s| == CELLS && TilesOk(ts) && OnTop(ts, i) && c < ts[i].count && ts[i].width == 16 && |block| == 32
    requires 32 * ts[i].count <= |ts[i].data| && ts[i].data[32 * c..32 * c + 32] == block
    ensures ts[i].page + 2 <= 8 && 8 * ts[i].column + 16 * c + 16 <= 128
    ensures FullAt(DrawTiles(s, ts), ts[i].page, 8 * ts[i].column + 16 * c, block)
  {
    var t := ts[i];
    hide DrawTiles, OnTop, TileOk, Cell;
    FullBounds(t, c);
    var r, left := DrawTiles(s, ts), 8 * t.column + 16 * c;
    forall b | 0 <= b < 32 ensures Cell(r, t.page + b / 16, left + b % 16) == block[b] {
      FullByte(s, ts, i, c, block, b);
    }
  }


  lemma HalfCell(s: Bytes, ts: seq<Tile>, i: nat, c: nat, block: Bytes, q: nat, dx: nat)
    requires |s| == CELLS && TilesOk(ts) && OnTop(ts, i) && c < ts[i].count && ts[i].width == 8 && |block| == 16
    requires 16 * ts[i].count <= |ts[i].data| && ts[i].data[16 * c..16 * c + 16] == block
    requires q < 2 && dx < 8 && ts[i].page + 2 <= 8 && 8 * ts[i].column + 8 * c + 8 <= 128
    ensures Cell(DrawTiles(s, ts), ts[i].page + q, 8 * ts[i].column + 8 * c + dx) == block[8 * q + dx]
  {
    var t, from, y, x := ts[i], 16 * c, ts[i].page + q, 8 * ts[i].column + 8 * c + dx;
    hide *;
    CellShown(s, ts, i, c, q, dx);
    HalfIndex(t, c, q, dx);
    Slice(t.data, from, 16, 8 * q + dx);
    CellIs(DrawTiles(s, ts), y, x);
  }

  lemma HalfByte(s: Bytes, ts: seq<Tile>, i: nat, c: nat, block: Bytes, b: nat)
    requires |s| == CELLS && TilesOk(ts) && OnTop(ts, i) && c < ts[i].count && ts[i].width == 8 && |block| == 16
    requires 16 * ts[i].count <= |ts[i].data| && ts[i].data[16 * c..16 * c + 16] == block
    requires b < 16 && ts[i].page + 2 <= 8 && 8 * ts[i].column + 8 * c + 8 <= 128
    ensures Cell(DrawTiles(s, ts), ts[i].page + b / 8, 8 * ts[i].column + 8 * c + b % 8) == block[b]
  {
    var q, dx := b / 8, b % 8;
    hide *;
    assert 8 * q + dx == b;
    HalfCell(s, ts, i, c, block, q, dx);
  }

  lemma HalfBlock(s: Bytes, ts: seq<Tile>, i: nat, c: nat, block: Bytes)
    requires |s| == CELLS && TilesOk(ts) && OnTop(ts, i) && c < ts[i].count && ts[i].width == 8 && |block| == 16
    requires 16 * ts[i].count <= |ts[i].data| && ts[i].data[16 * c..16 * c + 16] == block
    ensures ts[i].page + 2 <= 8 && 8 * ts[i].column + 8 * c + 8 <= 128
    ensures HalfAt(DrawTiles(s, ts), ts[i].page, 8 * ts[i].column + 8 * c, block)
  {
    var t := ts[i];
    hide DrawTiles, OnTop, TileOk, Cell;
    HalfBounds(t, c);
    var r, left := DrawTiles(s, ts), 8 * t.column + 8 * c;
    forall b | 0 <= b < 16 ensures Cell(r, t.page + b / 8, left + b % 8) == block[b] {
      HalfByte(s, ts, i, c, block, b);
    }
  }


  lemma SpelledChar(t: Text, i: nat, c: Char)
    requires i < |Title(t)| && Reads(c, Title(t)[i])
    ensures i < |Chars(t)| && c == Chars(t)[i]
  {
    TextReads(t);
    hide Chars, Title, CodePoint, WellFormed;
    assert Reads(Chars(t)[i], Title(t)[i]);
    CodePointInjective(c, Chars(t)[i]);
  }

  lemma LabelShown(f: Fonts, s: Bytes, ts: seq<Tile>, i: nat, row: nat, column: nat, text: Text, len: nat)
    requires FontsOk(f) && |s| == CELLS && TilesOk(ts) && OnTop(ts, i) && row + 2 <= 8 && 8 * column + 16 * len <= 128
    requires len <= 16 && |Title(text)| <= len && ts[i] == LabelTile(f, row, column, text, len)
    ensures ShowsText(f, DrawTiles(s, ts), row, column, Title(text))
  {
    hide Chars, Title, LabelTile, GlyphOf, OnTop, DrawTiles, FullAt, CodePoint, WellFormed, TileOk, Reads, FontOk;
    LabelData(f, row, column, text, len);
    forall k, c | 0 <= k < |Title(text)| && Reads(c, Title(text)[k])
      ensures FullAt(DrawTiles(s, ts), row, 8 * column + 16 * k, GlyphOf(f.full, c))
    {
      SpelledChar(text, k, c);
      FullBlock(s, ts, i, k, GlyphOf(f.full, c));
    }
  }

  lemma LabelData(f: Fonts, row: nat, column: nat, text: Text, len: nat)
    requires FontsOk(f) && row + 2 <= 8 && len <= 16 && 8 * column + 16 * len <= 128 && |Title(text)| <= len
    ensures var t, n := LabelTile(f, row, column, text, len), |Title(text)|;
            && t.page == row && t.column == column && t.width == 16 && t.count == n == |Chars(text)| <= 16
            && |t.data| == 512
            && forall k :: 0 <= k < n ==> t.data[32 * k..32 * k + 32] == GlyphOf(f.full, Chars(text)[k])
  {
    TextReads(text);
    hide Chars, Title, GlyphOf, GlyphsOf, Reads;
    var t := LabelTile(f, row, column, text, len);
    forall k | 0 <= k < |Chars(text)| ensures t.data[32 * k..32 * k + 32] == GlyphOf(f.full, Chars(text)[k]) {
      forall b | 0 <= b < 32 ensures t.data[32 * k + b] == GlyphOf(f.full, Chars(text)[k])[b] {
        GlyphsAt(f.full, Chars(text), k, b);
      }
    }
  }

  lemma HalfShown(f: Fonts, s: Bytes, ts: seq<Tile>, i: nat, row: nat, column: nat, str: seq<bv8>, k: nat)
    requires FontsOk(f) && |s| == CELLS && TilesOk(ts) && OnTop(ts, i) && row + 2 <= 8 && 8 * column + 8 * |str| <= 128
    requires (forall j :: 0 <= j < |str| ==> str[j] != 0) && ts[i] == HalfTile(f, row, column, str) && k < |str|
    ensures ShowsHalf(f, DrawTiles(s, ts), row, 8 * column + 8 * k, str[k])
  {
    var block := HalfGlyph(f.half, str[k], 100);
    hide HalfGlyph, HalfGlyphs, OnTop, DrawTiles, HalfAt;
    forall b | 0 <= b < 16 ensures ts[i].data[16 * k + b] == block[b] {
      HalfGlyphsAt(f.half, str, k, b);
    }
    assert ts[i].data[16 * k..16 * k + 16] == block;
    HalfBlock(s, ts, i, k, block);
  }

  lemma GapShown(s: Bytes, ts: seq<Tile>, i: nat, row: nat)
    requires |s| == CELLS && TilesOk(ts) && OnTop(ts, i) && row + 2 <= 8 && ts[i] == ClearTile(row)
    ensures Gap(DrawTiles(s, ts), row)
  {
    assert i < |ts|;
    hide OnTop, DrawTiles, HalfAt;
    assert ts[i].data == Blank(16) && ts[i].count == 1;
    assert ts[i].data[16 * 0..16 * 0 + 16] == Blank(16);
    HalfBlock(s, ts, i, 0, Blank(16));
  }

  lemma DecimalDigits(v: nat)
    requires v < 1000
    ensures forall i :: 0 <= i < 4 ==> Digits(v)[i] == Decimal(v, i)
  {
    var h, t, u := v / 100, v % 100 / 10, v % 10;
    HundredsDigits(v);
    TensPlace(v, h, t, u);
    assert v % 1000 == v && v / 1000 == 0 && v / 10000 == 0 && h % 10 == h;
  }

  lemma TensPlace(v: nat, h: nat, t: nat, u: nat)
    requires v == 100 * h + 10 * t + u && t < 10 && u < 10
    ensures v / 10 % 10 == t
  {
    assert v / 10 == 10 * h + t;
  }

  lemma NumberShown(f: Fonts, s: Bytes, ts: seq<Tile>, i: nat, row: nat, v: nat)
    requires FontsOk(f) && |s| == CELLS && TilesOk(ts) && OnTop(ts, i) && row + 2 <= 8 && v < 1000
    requires ts[i] == NumberTile(f, row, v)
    ensures ShowsNumber(f, DrawTiles(s, ts), row, v)
  {
    hide Decimal, OnTop, DrawTiles, HalfAt, NumberTile, TileOk;
    assert i < |ts| by { SameIndex(ts, i); }
    NumberGeometry(f, row, v);
    forall k {:trigger Decimal(v, k)} | 0 <= k < 4
      ensures HalfAt(DrawTiles(s, ts), row, 80 + 8 * k, f.half.glyphs[16 * Decimal(v, k)..16 * Decimal(v, k) + 16])
    {
      NumberData(f, row, v, k);
      HalfBlock(s, ts, i, k, f.half.glyphs[16 * Decimal(v, k)..16 * Decimal(v, k) + 16]);
    }
  }

  lemma SameIndex(ts: seq<Tile>, i: nat)
    requires OnTop(ts, i)
    ensures i < |ts|
  {
  }

  lemma NumberGeometry(f: Fonts, row: nat, v: nat)
    requires FontsOk(f) && row + 2 <= 8 && v < 65536
    ensures var t := NumberTile(f, row, v);
            t.page == row && t.column == 10 && t.width == 8 && t.count == 4 && |t.data| == 64
  {
  }

  lemma NumberData(f: Fonts, row: nat, v: nat, k: nat)
    requires FontsOk(f) && row + 2 <= 8 && v < 1000 && k < 4
    ensures |NumberTile(f, row, v).data| == 64 && 16 * Decimal(v, k) + 16 <= |f.half.glyphs|
    ensures NumberTile(f, row, v).data[16 * k..16 * k + 16]
         == f.half.glyphs[16 * Decimal(v, k)..16 * Decimal(v, k) + 16]
  {
    DecimalDigits(v);
    hide Digits, Decimal, DigitGlyphs;
    var data, d := NumberTile(f, row, v).data, Decimal(v, k);
    assert Digits(v)[k] == d;
    DigitGlyphsAt(f.half, Digits(v), k, 15);
    var here, block := data[16 * k..16 * k + 16], f.half.glyphs[16 * d..16 * d + 16];
    forall b | 0 <= b < 16 ensures here[b] == block[b] {
      DigitGlyphsAt(f.half, Digits(v), k, b);
    }
    assert here == block;
  }

  // ---------- the pages ----------

  ghost predicate UpperContents(f: Fonts, s: Bytes)
    requires FontsOk(f) && |s| == CELLS
  {
    ShowsText(f, s, 0, 1, "参数设置") && ShowsText(f, s, 3, 1, "屏幕设置") && ShowsText(f, s, 6, 1, "版本")
  }

  ghost predicate LowerContents(f: Fonts, s: Bytes)
    requires FontsOk(f) && |s| == CELLS
  {
    ShowsText(f, s, 0, 1, "恢复默认") && ShowsText(f, s, 3, 1, "组网")
  }

  ghost predicate SensorContents(f: Fonts, s: Bytes, p: Params)
    requires FontsOk(f) && |s| == CELLS
  {
    && ShowsText(f, s, 0, 1, "距离") && ShowsText(f, s, 3, 1, "灵敏度") && ShowsText(f, s, 6, 1, "发射功率")
    && ShowsNumber(f, s, 0, p.distance) && ShowsNumber(f, s, 3, p.sensitivity) && ShowsNumber(f, s, 6, p.power)
  }

  ghost predicate OledContents(f: Fonts, s: Bytes, p: Params)
    requires FontsOk(f) && |s| == CELLS
  {
    && ShowsText(f, s, 0, 1, "亮度") && ShowsText(f, s, 3, 1, "息屏时间")
    && ShowsNumber(f, s, 0, p.light) && ShowsNumber(f, s, 3, p.closeTime)
  }

  /** What the source's tables and drawing functions put on each page. */
  ghost predicate PageShows(f: Fonts, s: Bytes, page: nat, p: Params)
    requires FontsOk(f) && |s| == CELLS && page < PAGE_COUNT
  {
    if page == WELCOME then
      ShowsText(f, s, 2, 4, "欢迎使用") && ShowsText(f, s, 5, 3, "请按确认键")
    else if page == MAIN then
      ShowsText(f, s, 0, 0, "客厅") && ShowsText(f, s, 3, 0, "房间") && ShowsText(f, s, 6, 0, "厨房")
    else if page <= SET_3 then ShowsCursor(f, s, 3, page - SET_1) && UpperContents(f, s)
    else if page <= SET_5 then ShowsCursor(f, s, 2, page - SET_4) && LowerContents(f, s)
    else if page <= SENSOR_3 then ShowsCursor(f, s, 3, page - SENSOR_1) && SensorContents(f, s, p)
    else if page <= OLED_2 then ShowsCursor(f, s, 2, page - OLED_1) && OledContents(f, s, p)
    else if page == VISION then
      ShowsText(f, s, 3, 2, "版本号") && ShowsAscii(f, s, 3, 8, ":V1.0")
    else if page == PROVISIONING then
      ShowsText(f, s, 3, 2, "组网中") && ShowsAscii(f, s, 3, 8, "...")
    else
      ShowsText(f, s, 3, 2, if page == FACTORY_CONFIRM then "确认恢复默认" else "确定更改参数")
      && ShowsAscii(f, s, 3, 14, "?")
  }

  /** The only places where a page may have anything. */
  function Places(page: nat): set<Area> {
    if page == WELCOME then {Area(2, 4, 64), Area(5, 3, 80)}
    else if page == MAIN then {Area(0, 0, 32), Area(3, 0, 32), Area(6, 0, 32)}
    else if page <= SET_3 then
      {Area(0, 0, 8), Area(3, 0, 8), Area(6, 0, 8), Area(0, 1, 64), Area(3, 1, 64), Area(6, 1, 32)}
    else if page <= SET_5 then {Area(0, 0, 8), Area(3, 0, 8), Area(0, 1, 64), Area(3, 1, 32)}
    else if page <= SENSOR_3 then
      {Area(0, 0, 8), Area(3, 0, 8), Area(6, 0, 8), Area(0, 1, 32), Area(3, 1, 48), Area(6, 1, 64),
       Area(0, 10, 32), Area(3, 10, 32), Area(6, 10, 32)}
    else if page <= OLED_2 then
      {Area(0, 0, 8), Area(3, 0, 8), Area(0, 1, 32), Area(3, 1, 64), Area(0, 10, 32), Area(3, 10, 32)}
    else if page == VISION then {Area(3, 2, 48), Area(3, 8, 40)}
    else if page == PROVISIONING then {Area(3, 2, 48), Area(3, 8, 24)}
    else {Area(3, 2, 96), Area(3, 14, 8)}
  }

  predicate Inside(a: Area, y: nat, x: nat) {
    a.page <= y < a.page + 2 && 8 * a.column <= x < 8 * a.column + a.span
  }

  /** Outside those places every cell is blank. */
  predicate NothingElse(s: Bytes, page: nat)
    requires |s| == CELLS
  {
    forall y: nat, x: nat {:trigger Cell(s, y, x)} :: y < 8 && x < 128 && Cell(s, y, x) != ZERO ==>
      exists a :: a in Places(page) && Inside(a, y, x)
  }

  ghost predicate ShowsAscii(f: Fonts, s: Bytes, row: nat, column: nat, str: string)
    requires FontsOk(f) && |s| == CELLS && row + 2 <= 8 && 8 * column + 8 * |str| <= 128
  {
    forall k, code: bv8 :: 0 <= k < |str| && IsAscii(code, str[k]) ==> ShowsHalf(f, s, row, 8 * column + 8 * k, code)
  }

  /** The byte is the ASCII code of the character. */
  predicate IsAscii(code: bv8, ch: char) {
    code != 0 && code as nat == ch as nat
  }

  // ---------- where the tiles of a page lie ----------

  predicate SpotsAre(ts: seq<Tile>, spots: seq<Area>) {
    |ts| == |spots| && forall i :: 0 <= i < |ts| ==> AreaOf(ts[i]) == spots[i]
  }

  predicate FreeFrom(spots: seq<Area>, i: nat) {
    i < |spots| && forall j :: i < j < |spots| ==> Apart(spots[i], spots[j])
  }

  lemma FreeIsOnTop(ts: seq<Tile>, spots: seq<Area>, i: nat)
    requires SpotsAre(ts, spots) && FreeFrom(spots, i)
    ensures i < |ts| && OnTop(ts, i)
  {
    hide Apart, AreaOf;
  }

  /** A painted cell that is not blank lies in one of the spots. */
  lemma BlankElsewhere(ts: seq<Tile>, spots: seq<Area>, y: nat, x: nat)
    requires TilesOk(ts) && SpotsAre(ts, spots) && y < 8 && x < 128
    requires forall i :: 0 <= i < |spots| ==> !Inside(spots[i], y, x)
    ensures Cell(DrawTiles(Blank(CELLS), ts), y, x) == ZERO
  {
    var k := 128 * y + x;
    assert k / 128 == y && k % 128 == x;
    hide DrawTiles, TileOk;
    forall j | 0 <= j < |ts| ensures !InTile(ts[j], ts[j].count, k) {
      assert AreaOf(ts[j]) == spots[j];
    }
    UncoveredKept(Blank(CELLS), ts, k);
  }

  lemma SpotsCover(ts: seq<Tile>, spots: seq<Area>, page: nat)
    requires TilesOk(ts) && SpotsAre(ts, spots) && forall i :: 0 <= i < |spots| ==> spots[i] in Places(page)
    ensures NothingElse(DrawTiles(Blank(CELLS), ts), page)
  {
    var s := DrawTiles(Blank(CELLS), ts);
    hide DrawTiles, TileOk, Places, SpotsAre, Cell, Inside;
    forall y: nat, x: nat {:trigger Cell(s, y, x)} | y < 8 && x < 128 && Cell(s, y, x) != ZERO
      ensures exists a :: a in Places(page) && Inside(a, y, x)
    {
      if forall i :: 0 <= i < |spots| ==> !Inside(spots[i], y, x) { BlankElsewhere(ts, spots, y, x); }
    }
  }

  lemma LabelSpot(f: Fonts, row: nat, column: nat, text: Text, len: nat)
    requires FontsOk(f) && row + 2 <= 8 && len <= 16 && 8 * column + 16 * len <= 128 && |Title(text)| <= len
    ensures AreaOf(LabelTile(f, row, column, text, len)) == Area(row, column, 16 * |Title(text)|)
  {
    LabelData(f, row, column, text, len);
    hide LabelTile, Title;
  }

  // ---------- page by page ----------

  lemma HalfSpot(f: Fonts, row: nat, column: nat, str: seq<bv8>)
    requires FontsOk(f) && row + 2 <= 8 && 8 * column + 8 * |str| <= 128
    requires forall i :: 0 <= i < |str| ==> str[i] != 0
    ensures AreaOf(HalfTile(f, row, column, str)) == Area(row, column, 8 * |str|)
  {
  }

  lemma NumberSpot(f: Fonts, row: nat, v: nat)
    requires FontsOk(f) && row + 2 <= 8 && v < 65536
    ensures AreaOf(NumberTile(f, row, v)) == Area(row, 10, 32)
  {
  }

  lemma GapSpot(row: nat)
    requires row + 2 <= 8
    ensures AreaOf(ClearTile(row)) == Area(row, 0, 8)
  {
  }

  lemma CursorSpot(f: Fonts, row: nat)
    requires FontsOk(f) && row + 2 <= 8
    ensures AreaOf(CursorTile(f, row)) == Area(row, 0, 8)
  {
    HalfSpot(f, row, 0, [CURSOR]);
  }

  /** The cursor tile on top of everything later shows the cursor. */
  lemma CursorShown(f: Fonts, ts: seq<Tile>, i: nat, row: nat)
    requires FontsOk(f) && TilesOk(ts) && OnTop(ts, i) && row + 2 <= 8 && ts[i] == CursorTile(f, row)
    ensures ShowsHalf(f, DrawTiles(Blank(CELLS), ts), row, 0, 0x3E)
  {
    HalfShown(f, Blank(CELLS), ts, i, row, 0, [CURSOR], 0);
  }

  lemma ClearOthersThree()
    ensures ClearOthers(3, 0) == [ClearTile(3), ClearTile(6)]
    ensures ClearOthers(3, 1) == [ClearTile(0), ClearTile(6)]
    ensures ClearOthers(3, 2) == [ClearTile(0), ClearTile(3)]
    ensures ClearOthers(2, 0) == [ClearTile(3)] && ClearOthers(2, 1) == [ClearTile(0)]
  {
    hide ClearTile;
    assert ClearOthers(1, 0) == [] && ClearOthers(1, 1) == [ClearTile(0)] && ClearOthers(1, 2) == [ClearTile(0)];
    assert ClearOthers(2, 2) == [ClearTile(0), ClearTile(3)];
  }

  lemma ClearAllThree()
    ensures ClearAll(2) == [ClearTile(0), ClearTile(3)]
    ensures ClearAll(3) == [ClearTile(0), ClearTile(3), ClearTile(6)]
  {
    hide ClearTile;
    assert ClearAll(1) == [ClearTile(0)];
  }

  /** Spots that lie apart from one another. */
  predicate Scattered(spots: seq<Area>) {
    forall i, j :: 0 <= i < j < |spots| ==> Apart(spots[i], spots[j])
  }

  lemma AllOnTop(ts: seq<Tile>, spots: seq<Area>)
    requires SpotsAre(ts, spots) && Scattered(spots)
    ensures forall i :: 0 <= i < |ts| ==> OnTop(ts, i)
  {
    hide Apart, AreaOf;
    forall i | 0 <= i < |ts| ensures OnTop(ts, i) {
      FreeIsOnTop(ts, spots, i);
    }
  }

  predicate CursorRows(row: nat, a: nat, b: nat) {
    row in {0, 3, 6} && a in {0, 3, 6} && b in {0, 3, 6} && row != a && row != b && a != b
  }

  lemma SensorSpots(f: Fonts, ts: seq<Tile>, row: nat, a: nat, b: nat, p: Params) returns (spots: seq<Area>)
    requires FontsOk(f) && ParamsFit(p) && CursorRows(row, a, b)
    requires ts == [ClearTile(a), ClearTile(b), CursorTile(f, row)] + SensorLabels(f) + SensorNumbers(f, p)
    ensures spots == [Area(a, 0, 8), Area(b, 0, 8), Area(row, 0, 8), Area(0, 1, 32), Area(3, 1, 48), Area(6, 1, 64),
                      Area(0, 10, 32), Area(3, 10, 32), Area(6, 10, 32)]
    ensures SpotsAre(ts, spots)
  {
    hide LabelTile, NumberTile, ClearTile, CursorTile, FontsOk, AreaOf, Chars;
    GapSpot(a);
    GapSpot(b);
    CursorSpot(f, row);
    LabelSpot(f, 0, 1, Distance, 2);
    LabelSpot(f, 3, 1, Sensitivity, 3);
    LabelSpot(f, 6, 1, Power, 4);
    NumberSpot(f, 0, p.distance);
    NumberSpot(f, 3, p.sensitivity);
    NumberSpot(f, 6, p.power);
    spots := [Area(a, 0, 8), Area(b, 0, 8), Area(row, 0, 8), Area(0, 1, 32), Area(3, 1, 48), Area(6, 1, 64),
              Area(0, 10, 32), Area(3, 10, 32), Area(6, 10, 32)];
  }

  lemma SensorScattered(row: nat, a: nat, b: nat)
    requires CursorRows(row, a, b)
    ensures Scattered([Area(a, 0, 8), Area(b, 0, 8), Area(row, 0, 8), Area(0, 1, 32), Area(3, 1, 48), Area(6, 1, 64),
                       Area(0, 10, 32), Area(3, 10, 32), Area(6, 10, 32)])
  {
  }

  lemma SensorShows(f: Fonts, ts: seq<Tile>, row: nat, a: nat, b: nat, p: Params)
    requires FontsOk(f) && ParamsFit(p) && Bounded(p) && CursorRows(row, a, b) && TilesOk(ts)
    requires ts == [ClearTile(a), ClearTile(b), CursorTile(f, row)] + SensorLabels(f) + SensorNumbers(f, p)
    ensures var s := DrawTiles(Blank(CELLS), ts);
            && ShowsHalf(f, s, row, 0, 0x3E) && Gap(s, a) && Gap(s, b)
            && SensorContents(f, s, p) && NothingElse(s, SENSOR_1)
  {
    var blank := Blank(CELLS);
    hide Chars, GlyphOf, HalfGlyph, DrawTiles, FontsOk, LabelTile, NumberTile, ClearTile, CursorTile, HalfTile;
    hide ShowsText, ShowsNumber, ShowsHalf, Gap, TilesOk, AreaOf, ParamsFit, NothingElse, OnTop, SpotsAre, Scattered;
    var spots := SensorSpots(f, ts, row, a, b, p);
    SensorScattered(row, a, b);
    AllOnTop(ts, spots);
    assert |ts| == 9;
    GapShown(blank, ts, 0, a);
    GapShown(blank, ts, 1, b);
    CursorShown(f, ts, 2, row);
    LabelShown(f, blank, ts, 3, 0, 1, Distance, 2);
    LabelShown(f, blank, ts, 4, 3, 1, Sensitivity, 3);
    LabelShown(f, blank, ts, 5, 6, 1, Power, 4);
    NumberShown(f, blank, ts, 6, 0, p.distance);
    NumberShown(f, blank, ts, 7, 3, p.sensitivity);
    NumberShown(f, blank, ts, 8, 6, p.power);
    SpotsCover(ts, spots, SENSOR_1);
  }

  lemma OledSpots(f: Fonts, ts: seq<Tile>, row: nat, a: nat, p: Params) returns (spots: seq<Area>)
    requires FontsOk(f) && ParamsFit(p) && row in {0, 3} && a in {0, 3} && row != a
    requires ts == [ClearTile(a), CursorTile(f, row)] + OledLabels(f) + OledNumbers(f, p)
    ensures spots == [Area(a, 0, 8), Area(row, 0, 8), Area(0, 1, 32), Area(3, 1, 64), Area(0, 10, 32), Area(3, 10, 32)]
    ensures SpotsAre(ts, spots) && Scattered(spots)
  {
    hide LabelTile, NumberTile, ClearTile, CursorTile, HalfTile, FontsOk, AreaOf, Chars;
    GapSpot(a);
    CursorSpot(f, row);
    LabelSpot(f, 0, 1, Brightness, 2);
    LabelSpot(f, 3, 1, ScreenOffTime, 4);
    NumberSpot(f, 0, p.light);
    NumberSpot(f, 3, p.closeTime);
    spots := [Area(a, 0, 8), Area(row, 0, 8), Area(0, 1, 32), Area(3, 1, 64), Area(0, 10, 32), Area(3, 10, 32)];
  }

  lemma OledShows(f: Fonts, ts: seq<Tile>, row: nat, a: nat, p: Params)
    requires FontsOk(f) && ParamsFit(p) && Bounded(p) && row in {0, 3} && a in {0, 3} && row != a && TilesOk(ts)
    requires ts == [ClearTile(a), CursorTile(f, row)] + OledLabels(f) + OledNumbers(f, p)
    ensures var s := DrawTiles(Blank(CELLS), ts);
            && ShowsHalf(f, s, row, 0, 0x3E) && Gap(s, a)
            && OledContents(f, s, p) && NothingElse(s, OLED_1)
  {
    var blank := Blank(CELLS);
    hide Chars, GlyphOf, HalfGlyph, DrawTiles, FontsOk, LabelTile, NumberTile, ClearTile, CursorTile, HalfTile;
    hide ShowsText, ShowsNumber, ShowsHalf, Gap, TilesOk, AreaOf, ParamsFit, NothingElse, OnTop, SpotsAre, Scattered;
    var spots := OledSpots(f, ts, row, a, p);
    AllOnTop(ts, spots);
    assert |ts| == 6;
    GapShown(blank, ts, 0, a);
    CursorShown(f, ts, 1, row);
    LabelShown(f, blank, ts, 2, 0, 1, Brightness, 2);
    LabelShown(f, blank, ts, 3, 3, 1, ScreenOffTime, 4);
    NumberShown(f, blank, ts, 4, 0, p.light);
    NumberShown(f, blank, ts, 5, 3, p.closeTime);
    SpotsCover(ts, spots, OLED_1);
  }

  // The settings pages blank the whole cursor column first; the cursor is then drawn over one of the gaps.

  lemma UpperSpots(f: Fonts, ts: seq<Tile>, row: nat) returns (spots: seq<Area>)
    requires FontsOk(f) && row in {0, 3, 6}
    requires ts == [ClearTile(0), ClearTile(3), ClearTile(6), CursorTile(f, row)] + SetLabels(f, SET_1)
    ensures spots == [Area(0, 0, 8), Area(3, 0, 8), Area(6, 0, 8), Area(row, 0, 8),
                      Area(0, 1, 64), Area(3, 1, 64), Area(6, 1, 32)]
    ensures SpotsAre(ts, spots)
    ensures forall i :: 0 <= i < |spots| && !(i < 3 && 3 * i == row) ==> FreeFrom(spots, i)
  {
    hide LabelTile, NumberTile, ClearTile, CursorTile, HalfTile, FontsOk, AreaOf, Chars;
    GapSpot(0);
    GapSpot(3);
    GapSpot(6);
    CursorSpot(f, row);
    LabelSpot(f, 0, 1, ParamSettings, 4);
    LabelSpot(f, 3, 1, ScreenSettings, 4);
    LabelSpot(f, 6, 1, Version, 2);
    spots := [Area(0, 0, 8), Area(3, 0, 8), Area(6, 0, 8), Area(row, 0, 8),
              Area(0, 1, 64), Area(3, 1, 64), Area(6, 1, 32)];
  }

  lemma FreeOnes(ts: seq<Tile>, spots: seq<Area>, n: nat, row: nat)
    requires SpotsAre(ts, spots)
    requires forall i :: 0 <= i < |spots| && !(i < n && 3 * i == row) ==> FreeFrom(spots, i)
    ensures forall i :: 0 <= i < |ts| && !(i < n && 3 * i == row) ==> OnTop(ts, i)
  {
    hide Apart, AreaOf;
    forall i | 0 <= i < |ts| && !(i < n && 3 * i == row) ensures OnTop(ts, i) {
      FreeIsOnTop(ts, spots, i);
    }
  }

  lemma UpperShows(f: Fonts, ts: seq<Tile>, row: nat)
    requires FontsOk(f) && row in {0, 3, 6} && TilesOk(ts)
    requires ts == [ClearTile(0), ClearTile(3), ClearTile(6), CursorTile(f, row)] + SetLabels(f, SET_1)
    ensures var s := DrawTiles(Blank(CELLS), ts);
            && ShowsHalf(f, s, row, 0, 0x3E)
            && (row != 0 ==> Gap(s, 0)) && (row != 3 ==> Gap(s, 3)) && (row != 6 ==> Gap(s, 6))
            && UpperContents(f, s) && NothingElse(s, SET_1)
  {
    var blank := Blank(CELLS);
    hide Chars, GlyphOf, HalfGlyph, DrawTiles, FontsOk, LabelTile, NumberTile, ClearTile, CursorTile, HalfTile;
    hide ShowsText, ShowsNumber, ShowsHalf, Gap, TilesOk, AreaOf, ParamsFit, NothingElse, OnTop, SpotsAre, Scattered;
    var spots := UpperSpots(f, ts, row);
    FreeOnes(ts, spots, 3, row);
    hide FreeFrom;
    assert |ts| == 7;
    if row != 0 { GapShown(blank, ts, 0, 0); }
    if row != 3 { GapShown(blank, ts, 1, 3); }
    if row != 6 { GapShown(blank, ts, 2, 6); }
    CursorShown(f, ts, 3, row);
    LabelShown(f, blank, ts, 4, 0, 1, ParamSettings, 4);
    LabelShown(f, blank, ts, 5, 3, 1, ScreenSettings, 4);
    LabelShown(f, blank, ts, 6, 6, 1, Version, 2);
    SpotsCover(ts, spots, SET_1);
  }

  lemma LowerSpots(f: Fonts, ts: seq<Tile>, row: nat) returns (spots: seq<Area>)
    requires FontsOk(f) && row in {0, 3}
    requires ts == [ClearTile(0), ClearTile(3), CursorTile(f, row)] + SetLabels(f, SET_4)
    ensures spots == [Area(0, 0, 8), Area(3, 0, 8), Area(row, 0, 8), Area(0, 1, 64), Area(3, 1, 32)]
    ensures SpotsAre(ts, spots)
    ensures forall i :: 0 <= i < |spots| && !(i < 2 && 3 * i == row) ==> FreeFrom(spots, i)
  {
    hide LabelTile, NumberTile, ClearTile, CursorTile, HalfTile, FontsOk, AreaOf, Chars;
    GapSpot(0);
    GapSpot(3);
    CursorSpot(f, row);
    LabelSpot(f, 0, 1, RestoreDefaults, 4);
    LabelSpot(f, 3, 1, Networking, 2);
    spots := [Area(0, 0, 8), Area(3, 0, 8), Area(row, 0, 8), Area(0, 1, 64), Area(3, 1, 32)];
  }

  lemma LowerShows(f: Fonts, ts: seq<Tile>, row: nat)
    requires FontsOk(f) && row in {0, 3} && TilesOk(ts)
    requires ts == [ClearTile(0), ClearTile(3), CursorTile(f, row)] + SetLabels(f, SET_4)
    ensures var s := DrawTiles(Blank(CELLS), ts);
            && ShowsHalf(f, s, row, 0, 0x3E) && (row != 0 ==> Gap(s, 0)) && (row != 3 ==> Gap(s, 3))
            && LowerContents(f, s) && NothingElse(s, SET_4)
  {
    var blank := Blank(CELLS);
    hide Chars, GlyphOf, HalfGlyph, DrawTiles, FontsOk, LabelTile, NumberTile, ClearTile, CursorTile, HalfTile;
    hide ShowsText, ShowsNumber, ShowsHalf, Gap, TilesOk, AreaOf, ParamsFit, NothingElse, OnTop, SpotsAre, Scattered;
    var spots := LowerSpots(f, ts, row);
    FreeOnes(ts, spots, 2, row);
    hide FreeFrom;
    assert |ts| == 5;
    if row != 0 { GapShown(blank, ts, 0, 0); }
    if row != 3 { GapShown(blank, ts, 1, 3); }
    CursorShown(f, ts, 2, row);
    LabelShown(f, blank, ts, 3, 0, 1, RestoreDefaults, 4);
    LabelShown(f, blank, ts, 4, 3, 1, Networking, 2);
    SpotsCover(ts, spots, SET_4);
  }

  lemma WelcomeSpots(f: Fonts, ts: seq<Tile>) returns (spots: seq<Area>)
    requires FontsOk(f)
    requires ts == [LabelTile(f, 2, 4, Welcome, 4), LabelTile(f, 5, 3, PressConfirm, 5)]
    ensures spots == [Area(2, 4, 64), Area(5, 3, 80)]
    ensures SpotsAre(ts, spots) && Scattered(spots)
  {
    hide LabelTile, NumberTile, ClearTile, CursorTile, HalfTile, FontsOk, AreaOf, Chars;
    LabelSpot(f, 2, 4, Welcome, 4);
    LabelSpot(f, 5, 3, PressConfirm, 5);
    spots := [Area(2, 4, 64), Area(5, 3, 80)];
  }

  lemma WelcomeShows(f: Fonts, ts: seq<Tile>)
    requires FontsOk(f) && TilesOk(ts)
    requires ts == [LabelTile(f, 2, 4, Welcome, 4), LabelTile(f, 5, 3, PressConfirm, 5)]
    ensures var s := DrawTiles(Blank(CELLS), ts);
            ShowsText(f, s, 2, 4, "欢迎使用") && ShowsText(f, s, 5, 3, "请按确认键") && NothingElse(s, WELCOME)
  {
    var blank := Blank(CELLS);
    hide Chars, GlyphOf, HalfGlyph, DrawTiles, FontsOk, LabelTile, NumberTile, ClearTile, CursorTile, HalfTile;
    hide ShowsText, ShowsNumber, ShowsHalf, Gap, TilesOk, AreaOf, ParamsFit, NothingElse, OnTop, SpotsAre, Scattered;
    var spots := WelcomeSpots(f, ts);
    AllOnTop(ts, spots);
    assert |ts| == 2;
    LabelShown(f, blank, ts, 0, 2, 4, Welcome, 4);
    LabelShown(f, blank, ts, 1, 5, 3, PressConfirm, 5);
    SpotsCover(ts, spots, WELCOME);
  }

  lemma MainSpots(f: Fonts, ts: seq<Tile>) returns (spots: seq<Area>)
    requires FontsOk(f)
    requires ts == [LabelTile(f, 0, 0, LivingRoom, 2), LabelTile(f, 3, 0, Room, 4), LabelTile(f, 6, 0, Kitchen, 4)]
    ensures spots == [Area(0, 0, 32), Area(3, 0, 32), Area(6, 0, 32)]
    ensures SpotsAre(ts, spots) && Scattered(spots)
  {
    hide LabelTile, NumberTile, ClearTile, CursorTile, HalfTile, FontsOk, AreaOf, Chars;
    LabelSpot(f, 0, 0, LivingRoom, 2);
    LabelSpot(f, 3, 0, Room, 4);
    LabelSpot(f, 6, 0, Kitchen, 4);
    spots := [Area(0, 0, 32), Area(3, 0, 32), Area(6, 0, 32)];
  }

  lemma MainShows(f: Fonts, ts: seq<Tile>)
    requires FontsOk(f) && TilesOk(ts)
    requires ts == [LabelTile(f, 0, 0, LivingRoom, 2), LabelTile(f, 3, 0, Room, 4), LabelTile(f, 6, 0, Kitchen, 4)]
    ensures var s := DrawTiles(Blank(CELLS), ts);
            && ShowsText(f, s, 0, 0, "客厅") && ShowsText(f, s, 3, 0, "房间") && ShowsText(f, s, 6, 0, "厨房")
            && NothingElse(s, MAIN)
  {
    var blank := Blank(CELLS);
    hide Chars, GlyphOf, HalfGlyph, DrawTiles, FontsOk, LabelTile, NumberTile, ClearTile, CursorTile, HalfTile;
    hide ShowsText, ShowsNumber, ShowsHalf, Gap, TilesOk, AreaOf, ParamsFit, NothingElse, OnTop, SpotsAre, Scattered;
    var spots := MainSpots(f, ts);
    AllOnTop(ts, spots);
    assert |ts| == 3;
    LabelShown(f, blank, ts, 0, 0, 0, LivingRoom, 2);
    LabelShown(f, blank, ts, 1, 3, 0, Room, 4);
    LabelShown(f, blank, ts, 2, 6, 0, Kitchen, 4);
    SpotsCover(ts, spots, MAIN);
  }

  lemma AsciiShown(f: Fonts, ts: seq<Tile>, i: nat, row: nat, column: nat, codes: seq<bv8>, str: string)
    requires FontsOk(f) && TilesOk(ts) && OnTop(ts, i) && row + 2 <= 8 && 8 * column + 8 * |str| <= 128
    requires Codes(codes, str)
    requires ts[i] == HalfTile(f, row, column, codes)
    ensures ShowsAscii(f, DrawTiles(Blank(CELLS), ts), row, column, str)
  {
    hide FontsOk, OnTop, TilesOk, DrawTiles, HalfTile, ShowsHalf;
    forall k, code: bv8 | 0 <= k < |str| && IsAscii(code, str[k])
      ensures ShowsHalf(f, DrawTiles(Blank(CELLS), ts), row, 8 * column + 8 * k, code)
    {
      assert IsAscii(codes[k], str[k]);
      SameByte(code, codes[k]);
      HalfShown(f, Blank(CELLS), ts, i, row, column, codes, k);
    }
  }

  lemma NoticeShows(f: Fonts, ts: seq<Tile>, text: Text, len: nat, column: nat, codes: seq<bv8>, str: string, page: nat)
    requires FontsOk(f) && TilesOk(ts) && |Title(text)| == len <= 6 && 2 * 8 + 16 * len <= 8 * column
    requires Codes(codes, str)
    requires 8 * column + 8 * |str| <= 128
    requires ts == [LabelTile(f, 3, 2, text, len), HalfTile(f, 3, column, codes)]
    requires Area(3, 2, 16 * len) in Places(page) && Area(3, column, 8 * |str|) in Places(page)
    ensures var s := DrawTiles(Blank(CELLS), ts);
            ShowsText(f, s, 3, 2, Title(text)) && ShowsAscii(f, s, 3, column, str) && NothingElse(s, page)
  {
    var blank, spots := Blank(CELLS), [Area(3, 2, 16 * len), Area(3, column, 8 * |str|)];
    hide Chars, GlyphOf, HalfGlyph, DrawTiles, FontsOk, LabelTile, HalfTile, Title, Places;
    hide ShowsText, ShowsAscii, TilesOk, AreaOf, NothingElse, OnTop;
    LabelSpot(f, 3, 2, text, len);
    HalfSpot(f, 3, column, codes);
    AllOnTop(ts, spots);
    LabelShown(f, blank, ts, 0, 3, 2, text, len);
    AsciiShown(f, ts, 1, 3, column, codes, str);
    SpotsCover(ts, spots, page);
  }

  // ---------- every page ----------

  lemma CursorOfThree(f: Fonts, s: Bytes, selected: nat)
    requires FontsOk(f) && |s| == CELLS && selected < 3 && ShowsHalf(f, s, 3 * selected, 0, 0x3E)
    requires (selected != 0 ==> Gap(s, 0)) && (selected != 1 ==> Gap(s, 3)) && (selected != 2 ==> Gap(s, 6))
    ensures ShowsCursor(f, s, 3, selected)
  {
    hide ShowsHalf, Gap, FontsOk;
    forall r {:trigger Gap(s, 3 * r)} | 0 <= r < 3
      ensures if r == selected then ShowsHalf(f, s, 3 * r, 0, 0x3E) else Gap(s, 3 * r)
    {
      assert r == 0 || r == 1 || r == 2;
    }
  }

  lemma CursorOfTwo(f: Fonts, s: Bytes, selected: nat)
    requires FontsOk(f) && |s| == CELLS && selected < 2 && ShowsHalf(f, s, 3 * selected, 0, 0x3E)
    requires (selected != 0 ==> Gap(s, 0)) && (selected != 1 ==> Gap(s, 3))
    ensures ShowsCursor(f, s, 2, selected)
  {
    hide ShowsHalf, Gap, FontsOk;
    forall r {:trigger Gap(s, 3 * r)} | 0 <= r < 2
      ensures if r == selected then ShowsHalf(f, s, 3 * r, 0, 0x3E) else Gap(s, 3 * r)
    {
      assert r == 0 || r == 1;
    }
  }

  lemma SensorOrder(f: Fonts, page: nat, p: Params) returns (a: nat, b: nat)
    requires FontsOk(f) && SENSOR_1 <= page <= SENSOR_3 && ParamsFit(p)
    ensures CursorRows(3 * (page - SENSOR_1), a, b)
    ensures PageTiles(f, page, p) == [ClearTile(a), ClearTile(b), CursorTile(f, 3 * (page - SENSOR_1))]
                                     + SensorLabels(f) + SensorNumbers(f, p)
  {
    hide PageTiles, ClearOthers, ClearTile, CursorTile, SensorLabels, SensorNumbers, FontsOk, ParamsFit;
    var row := page - SENSOR_1;
    a, b := if row == 0 then 3 else 0, if row == 2 then 3 else 6;
    SensorPage(f, page, p);
    ClearOthersThree();
    assert ClearOthers(3, row) == [ClearTile(a), ClearTile(b)];
    assert [ClearTile(a), ClearTile(b)] + [CursorTile(f, 3 * row)]
        == [ClearTile(a), ClearTile(b), CursorTile(f, 3 * row)];
  }

  lemma SensorPageShows(f: Fonts, page: nat, p: Params)
    requires FontsOk(f) && SENSOR_1 <= page <= SENSOR_3 && ParamsFit(p) && Bounded(p)
    ensures var s := Render(f, page, p);
            ShowsCursor(f, s, 3, page - SENSOR_1) && SensorContents(f, s, p) && NothingElse(s, SENSOR_1)
  {
    var ts, row := PageTiles(f, page, p), page - SENSOR_1;
    hide PageTiles, DrawTiles, FontsOk, TilesOk, ParamsFit, Bounded, ClearTile, CursorTile, SensorLabels, SensorNumbers;
    hide ShowsCursor, SensorContents, NothingElse, ShowsHalf, Gap;
    var a, b := SensorOrder(f, page, p);
    SensorShows(f, ts, 3 * row, a, b, p);
    CursorOfThree(f, DrawTiles(Blank(CELLS), ts), row);
  }

  lemma OledOrder(f: Fonts, page: nat, p: Params) returns (a: nat)
    requires FontsOk(f) && OLED_1 <= page <= OLED_2 && ParamsFit(p)
    ensures a == if page == OLED_1 then 3 else 0
    ensures PageTiles(f, page, p)
         == [ClearTile(a), CursorTile(f, 3 * (page - OLED_1))] + OledLabels(f) + OledNumbers(f, p)
  {
    hide PageTiles, ClearOthers, ClearTile, CursorTile, OledLabels, OledNumbers, FontsOk, ParamsFit;
    var row := page - OLED_1;
    a := if page == OLED_1 then 3 else 0;
    OledPage(f, page, p);
    ClearOthersThree();
    assert ClearOthers(2, row) == [ClearTile(a)];
    assert [ClearTile(a)] + [CursorTile(f, 3 * row)] == [ClearTile(a), CursorTile(f, 3 * row)];
  }

  lemma OledPageShows(f: Fonts, page: nat, p: Params)
    requires FontsOk(f) && OLED_1 <= page <= OLED_2 && ParamsFit(p) && Bounded(p)
    ensures var s := Render(f, page, p);
            ShowsCursor(f, s, 2, page - OLED_1) && OledContents(f, s, p) && NothingElse(s, OLED_1)
  {
    var ts, row := PageTiles(f, page, p), page - OLED_1;
    hide PageTiles, DrawTiles, FontsOk, TilesOk, ParamsFit, Bounded, ClearTile, CursorTile, OledLabels, OledNumbers;
    hide ShowsCursor, OledContents, NothingElse, ShowsHalf, Gap;
    var a := OledOrder(f, page, p);
    OledShows(f, ts, 3 * row, a, p);
    CursorOfTwo(f, DrawTiles(Blank(CELLS), ts), row);
  }

  lemma UpperOrder(f: Fonts, page: nat, p: Params)
    requires FontsOk(f) && SET_1 <= page <= SET_3 && ParamsFit(p)
    ensures PageTiles(f, page, p) == [ClearTile(0), ClearTile(3), ClearTile(6), CursorTile(f, 3 * (page - SET_1))]
                                     + SetLabels(f, SET_1)
  {
    hide PageTiles, ClearAll, ClearTile, CursorTile, SetLabels, FontsOk, ParamsFit;
    SetPage(f, page, p);
    ClearAllThree();
    SetLabelsShared(f, page, SET_1);
    var cursor := CursorTile(f, 3 * (page - SET_1));
    assert [ClearTile(0), ClearTile(3), ClearTile(6)] + [cursor] == [ClearTile(0), ClearTile(3), ClearTile(6), cursor];
  }

  lemma UpperPageShows(f: Fonts, page: nat, p: Params)
    requires FontsOk(f) && SET_1 <= page <= SET_3 && ParamsFit(p)
    ensures var s := Render(f, page, p);
            ShowsCursor(f, s, 3, page - SET_1) && UpperContents(f, s) && NothingElse(s, SET_1)
  {
    var ts, row := PageTiles(f, page, p), page - SET_1;
    hide PageTiles, DrawTiles, FontsOk, TilesOk, ParamsFit, ClearTile, CursorTile, SetLabels;
    hide ShowsCursor, UpperContents, NothingElse, ShowsHalf, Gap;
    UpperOrder(f, page, p);
    UpperShows(f, ts, 3 * row);
    CursorOfThree(f, DrawTiles(Blank(CELLS), ts), row);
  }

  lemma LowerOrder(f: Fonts, page: nat, p: Params)
    requires FontsOk(f) && SET_4 <= page <= SET_5 && ParamsFit(p)
    ensures PageTiles(f, page, p)
         == [ClearTile(0), ClearTile(3), CursorTile(f, 3 * (page - SET_4))] + SetLabels(f, SET_4)
  {
    hide PageTiles, ClearAll, ClearTile, CursorTile, SetLabels, FontsOk, ParamsFit;
    SetPage(f, page, p);
    ClearAllThree();
    SetLabelsShared(f, page, SET_4);
    var cursor := CursorTile(f, 3 * (page - SET_4));
    assert [ClearTile(0), ClearTile(3)] + [cursor] == [ClearTile(0), ClearTile(3), cursor];
  }

  lemma LowerPageShows(f: Fonts, page: nat, p: Params)
    requires FontsOk(f) && SET_4 <= page <= SET_5 && ParamsFit(p)
    ensures var s := Render(f, page, p);
            ShowsCursor(f, s, 2, page - SET_4) && LowerContents(f, s) && NothingElse(s, SET_4)
  {
    var ts, row := PageTiles(f, page, p), page - SET_4;
    hide PageTiles, DrawTiles, FontsOk, TilesOk, ParamsFit, ClearTile, CursorTile, SetLabels;
    hide ShowsCursor, LowerContents, NothingElse, ShowsHalf, Gap;
    LowerOrder(f, page, p);
    LowerShows(f, ts, 3 * row);
    CursorOfTwo(f, DrawTiles(Blank(CELLS), ts), row);
  }

  lemma NoticeOrder(f: Fonts, page: nat, p: Params)
    requires FontsOk(f) && VISION <= page < PAGE_COUNT && ParamsFit(p)
    ensures PageTiles(f, page, p) == NoticeTiles(f, page)
  {
    hide NoticeTiles, FontsOk, ParamsFit, SensorTiles, OledTiles, SettingsTiles, LabelTile;
  }

  /** The code list is the string in ASCII. */
  predicate Codes(codes: seq<bv8>, str: string) {
    |codes| == |str| && forall k :: 0 <= k < |codes| ==> codes[k] != 0 && IsAscii(codes[k], str[k])
  }

  lemma NoticeCodes()
    ensures Codes([0x3A, 0x56, 0x31, 0x2E, 0x30], ":V1.0") && Codes([0x2E, 0x2E, 0x2E], "...") && Codes([0x3F], "?")
  {
  }

  lemma VersionPageShows(f: Fonts, page: nat, p: Params)
    requires FontsOk(f) && page == VISION && ParamsFit(p)
    ensures PageShows(f, Render(f, page, p), page, p) && NothingElse(Render(f, page, p), page)
  {
    var ts := PageTiles(f, page, p);
    hide PageTiles, Chars, DrawTiles, FontsOk, LabelTile, HalfTile, ParamsFit, TilesOk, Codes, IsAscii;
    hide ShowsText, ShowsHalf, ShowsAscii, ShowsCursor, NothingElse, Cell;
    hide UpperContents, LowerContents, SensorContents, OledContents;
    NoticeOrder(f, page, p);
    NoticeCodes();
    NoticeShows(f, ts, VersionNumber, 3, 8, [0x3A, 0x56, 0x31, 0x2E, 0x30], ":V1.0", page);
  }

  lemma NetworkingPageShows(f: Fonts, page: nat, p: Params)
    requires FontsOk(f) && page == PROVISIONING && ParamsFit(p)
    ensures PageShows(f, Render(f, page, p), page, p) && NothingElse(Render(f, page, p), page)
  {
    var ts := PageTiles(f, page, p);
    hide PageTiles, Chars, DrawTiles, FontsOk, LabelTile, HalfTile, ParamsFit, TilesOk, Codes, IsAscii;
    hide ShowsText, ShowsHalf, ShowsAscii, ShowsCursor, NothingElse, Cell;
    hide UpperContents, LowerContents, SensorContents, OledContents;
    NoticeOrder(f, page, p);
    NoticeCodes();
    NoticeShows(f, ts, NetworkingNow, 3, 8, [0x2E, 0x2E, 0x2E], "...", page);
  }

  lemma ConfirmPageShows(f: Fonts, page: nat, p: Params)
    requires FontsOk(f) && SENSOR_CONFIRM <= page < PAGE_COUNT && ParamsFit(p)
    ensures PageShows(f, Render(f, page, p), page, p) && NothingElse(Render(f, page, p), page)
  {
    var ts := PageTiles(f, page, p);
    hide PageTiles, Chars, DrawTiles, FontsOk, LabelTile, HalfTile, ParamsFit, TilesOk, Codes, IsAscii;
    hide ShowsText, ShowsHalf, ShowsAscii, ShowsCursor, NothingElse, Cell;
    hide UpperContents, LowerContents, SensorContents, OledContents;
    NoticeOrder(f, page, p);
    NoticeCodes();
    NoticeShows(f, ts, if page == FACTORY_CONFIRM then ConfirmRestore else ConfirmChange, 6, 14, [0x3F], "?", page);
  }

  /** One set of places for the pages that are drawn over one another. */
  lemma GroupPlaces(s: Bytes, page: nat, first: nat)
    requires |s| == CELLS && page <= OLED_2 && first <= OLED_2 && SameGroup(page, first)
    ensures NothingElse(s, page) == NothingElse(s, first)
  {
    assert Places(page) == Places(first);
    hide Places, Cell, Inside;
  }

  /** The picture of every page, cell by cell. */
  lemma RenderShows(f: Fonts, page: nat, p: Params)
    requires FontsOk(f) && page < PAGE_COUNT && ParamsFit(p) && Bounded(p)
    ensures PageShows(f, Render(f, page, p), page, p) && NothingElse(Render(f, page, p), page)
  {
    hide FontsOk, ParamsFit, Bounded, DrawTiles, ShowsText, ShowsAscii, ShowsCursor, NothingElse, LabelTile;
    hide UpperContents, LowerContents, SensorContents, OledContents;
    if page == WELCOME {
      WelcomeShows(f, PageTiles(f, page, p));
    } else if page == MAIN {
      MainShows(f, PageTiles(f, page, p));
    } else {
      hide Render;
      var s := Render(f, page, p);
      if page <= SET_3 {
        UpperPageShows(f, page, p);
        GroupPlaces(s, page, SET_1);
      } else if page <= SET_5 {
        LowerPageShows(f, page, p);
        GroupPlaces(s, page, SET_4);
      } else if page <= SENSOR_3 {
        SensorPageShows(f, page, p);
        GroupPlaces(s, page, SENSOR_1);
      } else if page <= OLED_2 {
        OledPageShows(f, page, p);
        GroupPlaces(s, page, OLED_1);
      } else if page == VISION {
        VersionPageShows(f, page, p);
      } else if page == PROVISIONING {
        NetworkingPageShows(f, page, p);
      } else {
        ConfirmPageShows(f, page, p);
      }
    }
  }

  // ---------- over whole runs ----------

  /** Over every run from power-on, whenever no redraw is requested, as after every redraw, the display memory shows
      what the source puts on the current page, with the current parameters, and nothing else. */
  lemma {:induction false} ScreenShows(f: Fonts, actions: seq<Action>)
    requires FontsOk(f)
    ensures var b := Run(f, PowerOn(), actions);
            !b.keyOn ==> PageShows(f, b.screen, b.current, b.params) && NothingElse(b.screen, b.current)
  {
    var b := Run(f, PowerOn(), actions);
    hide Run, Render, PageShows, NothingElse, FontsOk;
    AlwaysFresh(f, actions);
    if !b.keyOn { RenderShows(f, b.current, b.params); }
  }

  lemma AfterDraw(f: Fonts, actions: seq<Action>)
    requires FontsOk(f)
    ensures !Run(f, PowerOn(), actions + [Draw]).keyOn
  {
    var b := Run(f, PowerOn(), actions);
    assert (actions + [Draw])[..|actions|] == actions;
    assert Run(f, PowerOn(), actions + [Draw]) == DrawStep(f, b);
    hide Run, PageTiles;
  }

  /** Rows of the parameter group a page belongs to. */
  predicate Group(page: nat, first: nat, rows: nat) {
    || (SENSOR_1 <= page <= SENSOR_3 && first == SENSOR_1 && rows == 3)
    || (OLED_1 <= page <= OLED_2 && first == OLED_1 && rows == 2)
  }

  lemma NumberCell(f: Fonts, s: Bytes, row: nat, v: nat, i: nat, q: nat, dx: nat)
    requires FontsOk(f) && |s| == CELLS && row + 2 <= 8 && ShowsNumber(f, s, row, v) && i < 4 && q < 2 && dx < 8
    ensures 16 * Decimal(v, i) + 8 * q + dx < |f.half.glyphs|
    ensures s[128 * (row + q) + 80 + 8 * i + dx] == f.half.glyphs[16 * Decimal(v, i) + 8 * q + dx]
  {
    var d := Decimal(v, i);
    var block := f.half.glyphs[16 * d..16 * d + 16];
    assert HalfAt(s, row, 80 + 8 * i, block);
    hide Decimal;
    var b := 8 * q + dx;
    assert b / 8 == q && b % 8 == dx;
    assert Cell(s, row + b / 8, 80 + 8 * i + b % 8) == block[b];
  }

  /** Decimal digits, the thousands first. */
  predicate DigitsOf(d: seq<nat>, v: nat) {
    |d| == 4 && d[0] < 10 && d[1] < 10 && d[2] < 10 && d[3] < 10 && 1000 * d[0] + 100 * d[1] + 10 * d[2] + d[3] == v
  }

  lemma DecimalUnique(v: nat, d: seq<nat>, i: nat)
    requires DigitsOf(d, v) && i < 4
    ensures |d| == 4 && Decimal(v, i) == d[i]
  {
    Place(v, 1000, d[0], 100 * d[1] + 10 * d[2] + d[3]);
    Place(v, 100, 10 * d[0] + d[1], 10 * d[2] + d[3]);
    Place(v, 10, 100 * d[0] + 10 * d[1] + d[2], d[3]);
  }

  lemma Place(v: nat, unit: nat, high: nat, low: nat)
    requires unit in {10, 100, 1000} && v == unit * high + low && low < unit
    ensures v / unit == high && v % unit == low
  {
    if unit == 10 {
      assert v / 10 == high;
    } else if unit == 100 {
      assert v / 100 == high;
    } else {
      assert v / 1000 == high;
    }
  }

  /** Over every run from power-on ending with a redraw of a parameter page: on row 3r of the page, in four blocks of
      eight columns from column 80, stand the font blocks of the decimal digits of parameter r of the group. */
  lemma {:induction false} ParameterCells(
      f: Fonts, actions: seq<Action>, first: nat, rows: nat, r: nat, d: seq<nat>, i: nat, q: nat, dx: nat)
    requires FontsOk(f) && r < rows && i < 4 && q < 2 && dx < 8
    requires Group(Run(f, PowerOn(), actions + [Draw]).current, first, rows)
    requires DigitsOf(d, Increments.Get(Run(f, PowerOn(), actions + [Draw]).params, first + r))
    ensures var s := Run(f, PowerOn(), actions + [Draw]).screen;
            && 16 * d[i] + 8 * q + dx < |f.half.glyphs|
            && s[128 * (3 * r + q) + 80 + 8 * i + dx] == f.half.glyphs[16 * d[i] + 8 * q + dx]
  {
    var b := Run(f, PowerOn(), actions + [Draw]);
    hide Run, PageShows, Group, DigitsOf, NothingElse, Increments.Get;
    AfterDraw(f, actions);
    ScreenShows(f, actions + [Draw]);
    GroupRows(b.current, first, rows);
    NumberOnPage(f, b.screen, b.current, b.params, first, rows, r, d, i, q, dx);
  }

  lemma NumberOnPage(f: Fonts, s: Bytes, page: nat, p: Params, first: nat, rows: nat, r: nat,
                     d: seq<nat>, i: nat, q: nat, dx: nat)
    requires FontsOk(f) && |s| == CELLS && page < PAGE_COUNT && PageShows(f, s, page, p)
    requires Group(page, first, rows) && r < rows <= 3 && i < 4 && q < 2 && dx < 8
    requires DigitsOf(d, Increments.Get(p, first + r))
    ensures |d| == 4 && 16 * d[i] + 8 * q + dx < |f.half.glyphs|
    ensures s[128 * (3 * r + q) + 80 + 8 * i + dx] == f.half.glyphs[16 * d[i] + 8 * q + dx]
  {
    var v := Increments.Get(p, first + r);
    assert |d| == 4;
    hide ShowsNumber, Decimal, DigitsOf, PageShows, Group, Increments.Get, FontsOk;
    NumberOfRow(f, s, page, p, first, rows, r);
    DecimalUnique(v, d, i);
    NumberCell(f, s, 3 * r, v, i, q, dx);
  }

  lemma GroupRows(page: nat, first: nat, rows: nat)
    requires Group(page, first, rows)
    ensures rows <= 3 && first <= page < first + rows
  {
  }

  lemma NumberOfRow(f: Fonts, s: Bytes, page: nat, p: Params, first: nat, rows: nat, r: nat)
    requires FontsOk(f) && |s| == CELLS && page < PAGE_COUNT && PageShows(f, s, page, p)
    requires Group(page, first, rows) && r < rows
    ensures ShowsNumber(f, s, 3 * r, Increments.Get(p, first + r))
  {
    hide ShowsText, ShowsNumber, ShowsCursor, FontsOk;
  }

  /** Under the same conditions the cursor stands on the current entry's row and the other cursor cells are blank. */
  lemma {:induction false} CursorCells(
      f: Fonts, actions: seq<Action>, first: nat, rows: nat, r: nat, q: nat, dx: nat)
    requires FontsOk(f) && r < rows && q < 2 && dx < 8
    requires Group(Run(f, PowerOn(), actions + [Draw]).current, first, rows)
    ensures var b := Run(f, PowerOn(), actions + [Draw]);
            b.screen[128 * (3 * r + q) + dx]
            == if r == b.current - first then HalfGlyph(f.half, 0x3E, 100)[8 * q + dx] else ZERO
  {
    var b := Run(f, PowerOn(), actions + [Draw]);
    AfterDraw(f, actions);
    ScreenShows(f, actions + [Draw]);
    hide Run, FontsOk, ShowsText, ShowsNumber, NothingElse, HalfGlyph;
    CursorOfGroup(f, b.screen, b.current, b.params, first, rows);
    assert Gap(b.screen, 3 * r) || r == b.current - first;
    CursorCell(f, b.screen, r, q, dx, r == b.current - first);
  }

  lemma CursorOfGroup(f: Fonts, s: Bytes, page: nat, p: Params, first: nat, rows: nat)
    requires FontsOk(f) && |s| == CELLS && page < PAGE_COUNT && PageShows(f, s, page, p) && Group(page, first, rows)
    ensures first <= page && rows <= 3 && ShowsCursor(f, s, rows, page - first)
  {
    hide ShowsText, ShowsNumber, ShowsCursor, FontsOk;
  }

  lemma CursorCell(f: Fonts, s: Bytes, r: nat, q: nat, dx: nat, here: bool)
    requires FontsOk(f) && |s| == CELLS && r < 3 && q < 2 && dx < 8
    requires if here then ShowsHalf(f, s, 3 * r, 0, 0x3E) else Gap(s, 3 * r)
    ensures s[128 * (3 * r + q) + dx] == if here then HalfGlyph(f.half, 0x3E, 100)[8 * q + dx] else ZERO
  {
    var b := 8 * q + dx;
    assert b / 8 == q && b % 8 == dx;
    var block := if here then HalfGlyph(f.half, 0x3E, 100) else Blank(16);
    hide HalfGlyph;
    assert Cell(s, 3 * r + b / 8, 0 + b % 8) == block[b];
  }
}
