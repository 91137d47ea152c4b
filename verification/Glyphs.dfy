/** The font generator's bit packing (column bytes, least significant bit on top, upper half first) and the
    proof that the panel unpacks it. */
module Glyphs {
  import opened Octets
  import opened Display

  /** Rows of pixels, top to bottom. */
  type Image = seq<seq<bool>>

  predicate ImageOk(img: Image) {
    |img| == 16 && forall y :: 0 <= y < 16 ==> |img[y]| == 16
  }

  /** Bit j counted from the least significant. */
  predicate LsbBit(b: Octet, j: nat) {
    j < 8 && BitAt(b, 7 - j)
  }

  /** `byte | (1 << j)` */
  function SetBit(b: Octet, j: nat): Octet {
    Octet(b.b7 || j == 7, b.b6 || j == 6, b.b5 || j == 5, b.b4 || j == 4,
          b.b3 || j == 3, b.b2 || j == 2, b.b1 || j == 1, b.b0 || j == 0)
  }

  lemma SetBitAt(b: Octet, j: nat, i: nat)
    requires i < 8 && j < 8
    ensures LsbBit(SetBit(b, j), i) == (i == j || LsbBit(b, i))
  {
    if i == 0 {} else if i == 1 {} else if i == 2 {} else if i == 3 {}
    else if i == 4 {} else if i == 5 {} else if i == 6 {} else {}
  }

  /** A pixel of a screen. */
  predicate Pixel(s: Bytes, x: nat, y: nat)
    requires |s| == CELLS && x < COLUMNS && y < 64
  {
    LsbBit(s[COLUMNS * (y / 8) + x], y % 8)
  }

  function ByteAt(bytes: Bytes, p: nat, x: nat): Octet
    requires 16 * p + x < |bytes|
  {
    bytes[16 * p + x]
  }

  predicate BitMatches(b: Octet, j: nat, img: Image, p: nat, x: nat)
    requires ImageOk(img) && p < 2 && x < 16 && j < 8
  {
    LsbBit(b, j) == img[8 * p + j][x]
  }

  predicate ColumnPacked(b: Octet, img: Image, p: nat, x: nat)
    requires ImageOk(img) && p < 2 && x < 16
  {
    forall j :: 0 <= j < 8 ==> BitMatches(b, j, img, p, x)
  }

  predicate PackedUpTo(bytes: Bytes, img: Image, n: nat)
    requires ImageOk(img) && n <= |bytes|
  {
    forall p, x :: 0 <= p < 2 && 0 <= x < 16 && 16 * p + x < n ==> ColumnPacked(ByteAt(bytes, p, x), img, p, x)
  }

  /** What packing has to achieve: byte 16 * page + x holds the eight pixels of column x in that half. */
  predicate Packs(bytes: Bytes, img: Image)
    requires ImageOk(img)
  {
    |bytes| == 32 && PackedUpTo(bytes, img, 32)
  }

  /** The packing loop of the generator. */
  method PackGlyph(img: Image) returns (bytes: Bytes)
    requires ImageOk(img)
    ensures Packs(bytes, img)
  {
    bytes := [];
    var page := 0;
    while page < 2
      invariant 0 <= page <= 2 && |bytes| == 16 * page
      invariant PackedUpTo(bytes, img, |bytes|)
    {
      var x := 0;
      while x < 16
        invariant 0 <= x <= 16 && |bytes| == 16 * page + x
        invariant PackedUpTo(bytes, img, |bytes|)
      {
        var b := PackColumn(img, page, x);
        PackedSnoc(bytes, img, page, x, b);
        bytes := bytes + [b];
        x := x + 1;
      }
      page := page + 1;
    }
  }

  lemma PackedSnoc(bytes: Bytes, img: Image, page: nat, x: nat, b: Octet)
    requires ImageOk(img) && page < 2 && x < 16 && |bytes| == 16 * page + x
    requires PackedUpTo(bytes, img, |bytes|) && ColumnPacked(b, img, page, x)
    ensures PackedUpTo(bytes + [b], img, |bytes| + 1)
  {
    forall p, u | 0 <= p < 2 && 0 <= u < 16 && 16 * p + u < |bytes| + 1
      ensures ColumnPacked(ByteAt(bytes + [b], p, u), img, p, u)
    {
      if 16 * p + u < |bytes| {
        assert ByteAt(bytes + [b], p, u) == ByteAt(bytes, p, u);
      } else {
        assert p == page && u == x;
      }
    }
  }

  method PackColumn(img: Image, page: nat, x: nat) returns (b: Octet)
    requires ImageOk(img) && page < 2 && x < 16
    ensures ColumnPacked(b, img, page, x)
  {
    b := ZERO;
    forall j: nat | j < 8 ensures !LsbBit(ZERO, j) { ZeroBits(j); }
    var bit := 0;
    while bit < 8
      invariant 0 <= bit <= 8
      invariant forall j :: 0 <= j < bit ==> BitMatches(b, j, img, page, x)
      invariant forall j :: bit <= j < 8 ==> !LsbBit(b, j)
    {
      ghost var b0 := b;
      var y := page * 8 + bit;
      if img[y][x] {
        forall j | 0 <= j < 8 ensures LsbBit(SetBit(b, bit), j) == (j == bit || LsbBit(b, j)) {
          SetBitAt(b, bit, j);
        }
        b := SetBit(b, bit);
      }
      forall j | 0 <= j <= bit ensures BitMatches(b, j, img, page, x) {
        if j < bit { assert BitMatches(b0, j, img, page, x); }
      }
      bit := bit + 1;
    }
  }

  lemma ZeroBits(j: nat)
    ensures !LsbBit(ZERO, j)
  {
  }

  // ---------- drawing ----------

  /** The last glyph's two rows lie on top of the earlier ones. */
  lemma LastGlyphCell(s: Bytes, t: Tile, n: nat, k: nat)
    requires |s| == CELLS && TileOk(t) && 0 < n <= t.count && k < CELLS
    ensures AllFit(TileOps(t, n), CELLS) && AllFit(TileOps(t, n - 1), CELLS)
    ensures var x, y := GlyphRow(t, n - 1, 0), GlyphRow(t, n - 1, 1);
            Paint(s, TileOps(t, n))[k]
            == if Touches(y, k) then y.data[k - y.at] else if Touches(x, k) then x.data[k - x.at]
                                          else Paint(s, TileOps(t, n - 1))[k]
  {
    hide *;
    PaintNextGlyph(s, t, n - 1);
    RowFits(t, n - 1, 0);
    RowFits(t, n - 1, 1);
    TwoRowsCell(Paint(s, TileOps(t, n - 1)), GlyphRow(t, n - 1, 0), GlyphRow(t, n - 1, 1), k);
  }

  lemma RowFits(t: Tile, c: nat, p: nat)
    requires TileOk(t) && c < t.count && p < 2
    ensures Fits(GlyphRow(t, c, p), CELLS)
  {
    RowBounds(t, c);
  }

  lemma TwoRowsCell(g: Bytes, x: Blit, y: Blit, k: nat)
    requires Fits(x, |g|) && Fits(y, |g|) && k < |g|
    ensures Apply(Apply(g, x), y)[k]
         == if Touches(y, k) then y.data[k - y.at] else if Touches(x, k) then x.data[k - x.at] else g[k]
  {
    ApplyCell(g, x, k);
    ApplyCell(Apply(g, x), y, k);
  }

  lemma LastGlyphHit(s: Bytes, t: Tile, n: nat, p: nat, dx: nat)
    requires |s| == CELLS && TileOk(t) && 0 < n <= t.count && p < 2 && dx < t.width
    ensures AllFit(TileOps(t, n), CELLS)
    ensures CellOf(t, n - 1, p, dx) < CELLS && DataIndex(t, n - 1, p, dx) < |t.data|
    ensures Paint(s, TileOps(t, n))[CellOf(t, n - 1, p, dx)] == t.data[DataIndex(t, n - 1, p, dx)]
  {
    hide *;
    var c := n - 1;
    var k, row := CellOf(t, c, p, dx), GlyphRow(t, c, p);
    CellSplit(t, c, p, dx);
    RowData(t, c, p, dx);
    LastGlyphCell(s, t, n, k);
    RowHit(t, c, p, dx, c, 0);
    RowHit(t, c, p, dx, c, 1);
    if p == 1 {
      assert row == GlyphRow(t, c, 1) && Touches(row, k);
    } else {
      assert row == GlyphRow(t, c, 0) && Touches(row, k);
    }
    assert Paint(s, TileOps(t, n))[k] == row.data[k - row.at];
  }

  lemma LastGlyphMiss(s: Bytes, t: Tile, n: nat, c: nat, p: nat, dx: nat)
    requires |s| == CELLS && TileOk(t) && c + 1 < n <= t.count && p < 2 && dx < t.width
    ensures AllFit(TileOps(t, n), CELLS) && AllFit(TileOps(t, n - 1), CELLS)
    ensures CellOf(t, c, p, dx) < CELLS
    ensures Paint(s, TileOps(t, n))[CellOf(t, c, p, dx)] == Paint(s, TileOps(t, n - 1))[CellOf(t, c, p, dx)]
  {
    hide *;
    CellSplit(t, c, p, dx);
    LastGlyphCell(s, t, n, CellOf(t, c, p, dx));
    RowHit(t, c, p, dx, n - 1, 0);
    RowHit(t, c, p, dx, n - 1, 1);
  }

  /** Which data byte ends up in a cell of a drawn tile. */
  lemma {:induction false} TileCell(s: Bytes, t: Tile, n: nat, c: nat, p: nat, dx: nat)
    requires |s| == CELLS && TileOk(t) && c < n <= t.count && p < 2 && dx < t.width
    ensures AllFit(TileOps(t, n), CELLS)
    ensures CellOf(t, c, p, dx) < CELLS && DataIndex(t, c, p, dx) < |t.data|
    ensures Paint(s, TileOps(t, n))[CellOf(t, c, p, dx)] == t.data[DataIndex(t, c, p, dx)]
    decreases n
  {
    hide *;
    if c == n - 1 {
      LastGlyphHit(s, t, n, p, dx);
    } else {
      LastGlyphMiss(s, t, n, c, p, dx);
      TileCell(s, t, n - 1, c, p, dx);
    }
  }

  lemma RowHit(t: Tile, c: nat, p: nat, dx: nat, m: nat, q: nat)
    requires TileOk(t) && c <= m < t.count && p < 2 && q < 2 && dx < t.width
    ensures Touches(GlyphRow(t, m, q), CellOf(t, c, p, dx)) <==> c == m && p == q
  {
    CellSplit(t, c, p, dx);
    RowTouches(t, m, q, CellOf(t, c, p, dx));
    hide Touches, GlyphRow, CellOf;
    if c < m { EarlierColumn(t.width, c, m, dx); }
  }

  function DataIndex(t: Tile, c: nat, p: nat, dx: nat): nat {
    2 * (t.width * c) + t.width * p + dx
  }

  lemma RowData(t: Tile, c: nat, p: nat, dx: nat)
    requires TileOk(t) && c < t.count && p < 2 && dx < t.width
    ensures DataIndex(t, c, p, dx) < |t.data|
    ensures CellOf(t, c, p, dx) == GlyphRow(t, c, p).at + dx
    ensures GlyphRow(t, c, p).data[dx] == t.data[DataIndex(t, c, p, dx)]
  {
    RowBounds(t, c);
  }

  function CellOf(t: Tile, c: nat, p: nat, dx: nat): nat {
    COLUMNS * (t.page + p) + 8 * t.column + t.width * c + dx
  }

  lemma CellSplit(t: Tile, c: nat, p: nat, dx: nat)
    requires TileOk(t) && c < t.count && p < 2 && dx < t.width
    ensures var k := CellOf(t, c, p, dx);
            k < CELLS && k / COLUMNS == t.page + p && k % COLUMNS == 8 * t.column + t.width * c + dx
  {
    RowBounds(t, c);
  }

  lemma EarlierColumn(w: nat, c: nat, m: nat, dx: nat)
    requires c < m && dx < w
    ensures w * c + dx < w * m
  {
    assert w * (c + 1) <= w * m;
  }

  // ---------- packing and drawing undo each other ----------

  predicate PacksAll(data: Bytes, imgs: seq<Image>)
    requires forall c :: 0 <= c < |imgs| ==> ImageOk(imgs[c])
  {
    |data| == 32 * |imgs| && forall c :: 0 <= c < |imgs| ==> Packs(data[32 * c..32 * c + 32], imgs[c])
  }

  lemma GlyphPixel(s: Bytes, t: Tile, imgs: seq<Image>, c: nat, dx: nat, dy: nat)
    requires |s| == CELLS && TileOk(t) && t.width == 16 && t.count == |imgs| && c < |imgs| && dx < 16 && dy < 16
    requires (forall i :: 0 <= i < |imgs| ==> ImageOk(imgs[i])) && PacksAll(t.data, imgs)
    ensures Pixel(DrawTile(s, t), 8 * t.column + 16 * c + dx, 8 * t.page + dy) == imgs[c][dy][dx]
  {
    var p := dy / 8;
    PixelCell(t, c, p, dx, dy);
    hide Paint, TileOps, CellOf, DataIndex, PacksAll, Packs, LsbBit;
    TileCell(s, t, t.count, c, p, dx);
    PackedByte(t, imgs, c, dx, dy);
  }

  /** The byte of a packed glyph that holds one of its pixels. */
  lemma PackedByte(t: Tile, imgs: seq<Image>, c: nat, dx: nat, dy: nat)
    requires t.width == 16 && c < |imgs| && dx < 16 && dy < 16
    requires (forall i :: 0 <= i < |imgs| ==> ImageOk(imgs[i])) && PacksAll(t.data, imgs)
    ensures DataIndex(t, c, dy / 8, dx) < |t.data|
    ensures LsbBit(t.data[DataIndex(t, c, dy / 8, dx)], dy % 8) == imgs[c][dy][dx]
  {
    var p, glyph := dy / 8, t.data[32 * c..32 * c + 32];
    assert Packs(glyph, imgs[c]);
    assert ByteAt(glyph, p, dx) == t.data[DataIndex(t, c, p, dx)];
    assert ColumnPacked(ByteAt(glyph, p, dx), imgs[c], p, dx);
    hide LsbBit;
    assert BitMatches(ByteAt(glyph, p, dx), dy % 8, imgs[c], p, dx);
  }

  lemma PixelCell(t: Tile, c: nat, p: nat, dx: nat, dy: nat)
    requires t.width == 16 && dx < 16 && dy < 16 && p == dy / 8
    ensures COLUMNS * ((8 * t.page + dy) / 8) + (8 * t.column + 16 * c + dx) == CellOf(t, c, p, dx)
    ensures (8 * t.page + dy) % 8 == dy % 8 && 8 * p + dy % 8 == dy
  {
  }

  /** Packing any 16x16 images and drawing the bytes at an in-range position lights exactly the images'
      pixels in the rectangle and changes nothing outside it. */
  lemma PackThenDraw(s: Bytes, t: Tile, imgs: seq<Image>, x: nat, y: nat)
    requires |s| == CELLS && TileOk(t) && t.width == 16 && t.count == |imgs| && x < COLUMNS && y < 64
    requires (forall i :: 0 <= i < |imgs| ==> ImageOk(imgs[i])) && PacksAll(t.data, imgs)
    ensures Pixel(DrawTile(s, t), x, y)
         == if 8 * t.page <= y < 8 * t.page + 16 && 8 * t.column <= x < 8 * t.column + 16 * |imgs|
            then imgs[(x - 8 * t.column) / 16][y - 8 * t.page][(x - 8 * t.column) % 16]
            else Pixel(s, x, y)
  {
    if 8 * t.page <= y < 8 * t.page + 16 && 8 * t.column <= x < 8 * t.column + 16 * |imgs| {
      var d := x - 8 * t.column;
      GlyphPixel(s, t, imgs, d / 16, d % 16, y - 8 * t.page);
    } else {
      OutsideKept(s, t, x, y);
    }
  }

  lemma OutsideKept(s: Bytes, t: Tile, x: nat, y: nat)
    requires |s| == CELLS && TileOk(t) && x < COLUMNS && y < 64
    requires !(8 * t.page <= y < 8 * t.page + 16 && 8 * t.column <= x < 8 * t.column + t.width * t.count)
    ensures Pixel(DrawTile(s, t), x, y) == Pixel(s, x, y)
  {
    var k := COLUMNS * (y / 8) + x;
    CellRowColumn(y / 8, x);
    TileOpsFit(t, t.count);
    TileCovers(t, t.count, k);
    PaintCell(s, s, TileOps(t, t.count), k);
    hide Paint, TileOps, Covered, LsbBit;
    OutsideTile(t, x, y, k);
  }

  lemma CellRowColumn(row: nat, x: nat)
    requires row < 8 && x < COLUMNS
    ensures var k := COLUMNS * row + x;
            k < CELLS && k / COLUMNS == row && k % COLUMNS == x
  {
  }

  lemma OutsideTile(t: Tile, x: nat, y: nat, k: nat)
    requires k / COLUMNS == y / 8 && k % COLUMNS == x
    requires !(8 * t.page <= y < 8 * t.page + 16 && 8 * t.column <= x < 8 * t.column + t.width * t.count)
    ensures !InTile(t, t.count, k)
  {
  }
}
