/** The OLED's page-addressed memory: 8 pages of 128 columns, one byte (eight stacked pixels) a cell.
    Drawing is a list of rectangles of glyph columns (`Tile`); the driver's loops are proved to paint them. */
module Display {
  import opened Octets

  type Bytes = seq<Octet>

  const COLUMNS: nat := 128
  const PAGES: nat := 8
  const CELLS: nat := 1024

  function Blank(n: nat): (b: Bytes)
    ensures |b| == n && forall i :: 0 <= i < n ==> b[i] == ZERO
  {
    seq(n, _ => ZERO)
  }

  // ---------- painting ----------

  /** Consecutive cells written in one go. */
  datatype Blit = Blit(at: nat, data: Bytes)

  predicate Fits(b: Blit, n: nat) {
    b.at + |b.data| <= n
  }

  function Apply(s: Bytes, b: Blit): (t: Bytes)
    requires Fits(b, |s|)
    ensures |t| == |s|
  {
    s[..b.at] + b.data + s[b.at + |b.data|..]
  }

  predicate AllFit(ops: seq<Blit>, n: nat) {
    forall i :: 0 <= i < |ops| ==> Fits(ops[i], n)
  }

  function Paint(s: Bytes, ops: seq<Blit>): (t: Bytes)
    requires AllFit(ops, |s|)
    ensures |t| == |s|
  {
    if ops == [] then s else Apply(Paint(s, ops[..|ops| - 1]), ops[|ops| - 1])
  }

  predicate Touches(b: Blit, k: nat) {
    b.at <= k < b.at + |b.data|
  }

  predicate Covered(ops: seq<Blit>, k: nat) {
    exists i :: 0 <= i < |ops| && Touches(ops[i], k)
  }

  lemma ApplyCell(s: Bytes, b: Blit, k: nat)
    requires Fits(b, |s|) && k < |s|
    ensures Apply(s, b)[k] == if Touches(b, k) then b.data[k - b.at] else s[k]
  {
  }

  /** A covered cell does not depend on what was there; an uncovered one is left alone. */
  lemma {:induction false} PaintCell(s: Bytes, s': Bytes, ops: seq<Blit>, k: nat)
    requires |s| == |s'| && AllFit(ops, |s|) && k < |s|
    ensures Covered(ops, k) ==> Paint(s, ops)[k] == Paint(s', ops)[k]
    ensures !Covered(ops, k) ==> Paint(s, ops)[k] == s[k]
  {
    if ops != [] {
      var n := |ops| - 1;
      PaintCell(s, s', ops[..n], k);
      ApplyCell(Paint(s, ops[..n]), ops[n], k);
      ApplyCell(Paint(s', ops[..n]), ops[n], k);
      if Covered(ops[..n], k) {
        var i :| 0 <= i < n && Touches(ops[..n][i], k);
        assert Touches(ops[i], k);
      }
      if Touches(ops[n], k) { assert Covered(ops, k); }
      if Covered(ops, k) && !Touches(ops[n], k) {
        var i :| 0 <= i < |ops| && Touches(ops[i], k);
        assert Touches(ops[..n][i], k);
      }
    }
  }

  lemma {:induction false} PaintConcat(s: Bytes, a: seq<Blit>, b: seq<Blit>)
    requires AllFit(a, |s|) && AllFit(b, |s|)
    ensures AllFit(a + b, |s|) && Paint(s, a + b) == Paint(Paint(s, a), b)
  {
    if b == [] {
      assert a + b == a;
    } else {
      assert (a + b)[..|a| + |b| - 1] == a + b[..|b| - 1];
      PaintConcat(s, a, b[..|b| - 1]);
    }
  }

  /** Painting over a painting is painting from scratch when the new strokes cover the old ones. */
  lemma Repaint(s: Bytes, old': seq<Blit>, new': seq<Blit>)
    requires AllFit(old', |s|) && AllFit(new', |s|)
    requires forall k :: 0 <= k < |s| && Covered(old', k) ==> Covered(new', k)
    ensures Paint(Paint(s, old'), new') == Paint(s, new')
  {
    var t := Paint(s, old');
    forall k | 0 <= k < |s| ensures Paint(t, new')[k] == Paint(s, new')[k] {
      PaintCell(t, s, new', k);
      PaintCell(s, s, new', k);
      PaintCell(s, s, old', k);
    }
  }

  // ---------- tiles: n glyphs of width w, two pages high ----------

  datatype Tile = Tile(page: nat, column: nat, width: nat, count: nat, data: Bytes)

  predicate TileOk(t: Tile) {
    && t.page + 2 <= PAGES && 8 * t.column + t.width * t.count <= COLUMNS
    && |t.data| >= 2 * (t.width * t.count)
  }

  /** The cells of glyph number c on page row p (0 or 1), as the driver sends them. */
  function GlyphRow(t: Tile, c: nat, p: nat): Blit
    requires TileOk(t) && c < t.count && p < 2
    ensures GlyphRow(t, c, p).at + t.width <= CELLS && |GlyphRow(t, c, p).data| == t.width
  {
    RowBounds(t, c);
    Blit(COLUMNS * (t.page + p) + t.width * c + 8 * t.column, t.data[2 * (t.width * c) + t.width * p..][..t.width])
  }

  lemma RowBounds(t: Tile, c: nat)
    requires TileOk(t) && c < t.count
    ensures t.width * c + t.width <= t.width * t.count && t.width * c >= 0
  {
    hide *;
    Columns(t.width, c, t.count);
  }

  lemma {:induction false} Columns(width: nat, c: nat, count: nat)
    requires c < count
    ensures width * c >= 0 && width * c + width <= width * count
  {
    if c + 1 < count { Columns(width, c, count - 1); }
    assert width * count == width * (count - 1) + width;
  }

  function TileOps(t: Tile, n: nat): (ops: seq<Blit>)
    requires TileOk(t) && n <= t.count
    ensures |ops| == 2 * n
  {
    if n == 0 then [] else TileOps(t, n - 1) + [GlyphRow(t, n - 1, 0)] + [GlyphRow(t, n - 1, 1)]
  }

  lemma {:induction false} TileOpsFit(t: Tile, n: nat)
    requires TileOk(t) && n <= t.count
    ensures AllFit(TileOps(t, n), CELLS)
  {
    if n > 0 { TileOpsFit(t, n - 1); }
  }

  /** The next glyph adds its two rows on top. */
  lemma PaintNextGlyph(s: Bytes, t: Tile, c: nat)
    requires |s| == CELLS && TileOk(t) && c < t.count
    ensures AllFit(TileOps(t, c), CELLS) && AllFit(TileOps(t, c + 1), CELLS)
    ensures Paint(s, TileOps(t, c + 1)) == Apply(Apply(Paint(s, TileOps(t, c)), GlyphRow(t, c, 0)), GlyphRow(t, c, 1))
  {
    var ops, x, y := TileOps(t, c), GlyphRow(t, c, 0), GlyphRow(t, c, 1);
    TileOpsFit(t, c);
    TileOpsFit(t, c + 1);
    PaintConcat(s, ops, [x, y]);
    assert ops + [x] + [y] == ops + [x, y];
    hide Apply, GlyphRow, TileOps, Paint;
    PaintTwo(Paint(s, ops), x, y);
  }

  lemma PaintTwo(s: Bytes, x: Blit, y: Blit)
    requires Fits(x, |s|) && Fits(y, |s|)
    ensures AllFit([x, y], |s|) && Paint(s, [x, y]) == Apply(Apply(s, x), y)
  {
    hide Apply;
    assert [x, y][..1] == [x] && [x][..0] == [];
    assert Paint(s, [x]) == Apply(s, x);
  }

  /** Whether cell k lies in the tile's rectangle, up to the n-th glyph. */
  predicate InTile(t: Tile, n: nat, k: nat) {
    && t.page <= k / COLUMNS < t.page + 2
    && 8 * t.column <= k % COLUMNS < 8 * t.column + t.width * n
  }

  lemma RowTouches(t: Tile, c: nat, p: nat, k: nat)
    requires TileOk(t) && c < t.count && p < 2 && k < CELLS
    ensures Touches(GlyphRow(t, c, p), k)
       <==> k / COLUMNS == t.page + p
            && 8 * t.column + t.width * c <= k % COLUMNS < 8 * t.column + t.width * c + t.width
  {
    RowBounds(t, c);
    var q, r := k / COLUMNS, k % COLUMNS;
    assert k == COLUMNS * q + r;
    var lo := t.width * c + 8 * t.column;
    assert GlyphRow(t, c, p).at == COLUMNS * (t.page + p) + lo;
    assert lo + t.width <= COLUMNS;
  }

  lemma CoveredSnoc(ops: seq<Blit>, b: Blit, k: nat)
    ensures Covered(ops + [b], k) <==> Covered(ops, k) || Touches(b, k)
  {
    if Covered(ops, k) {
      var i :| 0 <= i < |ops| && Touches(ops[i], k);
      assert Touches((ops + [b])[i], k);
    }
    if Touches(b, k) { assert Touches((ops + [b])[|ops|], k); }
  }

  lemma NothingCovered(k: nat)
    ensures !Covered([], k)
  {
  }

  lemma {:induction false} TileCovers(t: Tile, n: nat, k: nat)
    requires TileOk(t) && n <= t.count && k < CELLS
    ensures Covered(TileOps(t, n), k) <==> InTile(t, n, k)
  {
    hide *;
    if n == 0 {
      EmptyTile(t, k);
    } else {
      TileCovers(t, n - 1, k);
      RowTouches(t, n - 1, 0, k);
      RowTouches(t, n - 1, 1, k);
      TileOpsSnoc(t, n, k);
      InTileSnoc(t, n, k);
    }
  }

  lemma TileOpsSnoc(t: Tile, n: nat, k: nat)
    requires TileOk(t) && 0 < n <= t.count
    ensures Covered(TileOps(t, n), k)
       <==> Covered(TileOps(t, n - 1), k) || Touches(GlyphRow(t, n - 1, 0), k) || Touches(GlyphRow(t, n - 1, 1), k)
  {
    hide Touches, Covered, GlyphRow;
    CoveredSnoc(TileOps(t, n - 1), GlyphRow(t, n - 1, 0), k);
    CoveredSnoc(TileOps(t, n - 1) + [GlyphRow(t, n - 1, 0)], GlyphRow(t, n - 1, 1), k);
  }

  lemma InTileSnoc(t: Tile, n: nat, k: nat)
    requires 0 < n
    ensures var col := 8 * t.column + t.width * (n - 1);
            InTile(t, n, k) <==>
              (|| InTile(t, n - 1, k)
               || (k / COLUMNS == t.page + 0 && col <= k % COLUMNS < col + t.width)
               || (k / COLUMNS == t.page + 1 && col <= k % COLUMNS < col + t.width))
  {
    assert t.width * n == t.width * (n - 1) + t.width;
    assert t.width * (n - 1) >= 0;
  }

  lemma EmptyTile(t: Tile, k: nat)
    requires TileOk(t)
    ensures Covered(TileOps(t, 0), k) <==> InTile(t, 0, k)
  {
    NothingCovered(k);
    assert t.width * 0 == 0;
  }

  // ---------- screens made of several tiles ----------

  predicate TilesOk(ts: seq<Tile>) {
    forall i :: 0 <= i < |ts| ==> TileOk(ts[i])
  }

  function DrawTile(s: Bytes, t: Tile): (r: Bytes)
    requires |s| == CELLS && TileOk(t)
    ensures |r| == CELLS
  {
    TileOpsFit(t, t.count);
    Paint(s, TileOps(t, t.count))
  }

  function DrawTiles(s: Bytes, ts: seq<Tile>): (r: Bytes)
    requires |s| == CELLS && TilesOk(ts)
    ensures |r| == CELLS
  {
    if ts == [] then s else DrawTile(DrawTiles(s, ts[..|ts| - 1]), ts[|ts| - 1])
  }

  lemma {:induction false} DrawTilesConcat(s: Bytes, a: seq<Tile>, b: seq<Tile>)
    requires |s| == CELLS && TilesOk(a) && TilesOk(b)
    ensures TilesOk(a + b) && DrawTiles(s, a + b) == DrawTiles(DrawTiles(s, a), b)
  {
    if b == [] {
      assert a + b == a;
    } else {
      hide DrawTile, TileOk;
      var front, t := b[..|b| - 1], b[|b| - 1];
      DrawTilesConcat(s, a, front);
      assert (a + b)[..|a + b| - 1] == a + front && (a + b)[|a + b| - 1] == t;
      assert forall i :: 0 <= i < |a + b| ==> TileOk((a + b)[i]);
    }
  }

  /** All strokes of a list of tiles. */
  function AllOps(ts: seq<Tile>): seq<Blit>
    requires TilesOk(ts)
  {
    if ts == [] then [] else AllOps(ts[..|ts| - 1]) + TileOps(ts[|ts| - 1], ts[|ts| - 1].count)
  }

  lemma {:induction false} DrawTilesIsPaint(s: Bytes, ts: seq<Tile>)
    requires |s| == CELLS && TilesOk(ts)
    ensures AllFit(AllOps(ts), CELLS) && DrawTiles(s, ts) == Paint(s, AllOps(ts))
  {
    if ts != [] {
      var n := |ts| - 1;
      DrawTilesIsPaint(s, ts[..n]);
      TileOpsFit(ts[n], ts[n].count);
      PaintConcat(s, AllOps(ts[..n]), TileOps(ts[n], ts[n].count));
    }
  }

  lemma CoveredConcat(a: seq<Blit>, b: seq<Blit>, k: nat)
    ensures Covered(a + b, k) <==> Covered(a, k) || Covered(b, k)
  {
    var c := a + b;
    if Covered(a, k) { var i :| 0 <= i < |a| && Touches(a[i], k); assert Touches(c[i], k); }
    if Covered(b, k) { var i :| 0 <= i < |b| && Touches(b[i], k); assert Touches(c[|a| + i], k); }
    if Covered(c, k) {
      var i :| 0 <= i < |c| && Touches(c[i], k);
      if i < |a| { assert Touches(a[i], k); } else { assert Touches(b[i - |a|], k); }
    }
  }

  ghost predicate InSomeTile(ts: seq<Tile>, k: nat) {
    exists i :: 0 <= i < |ts| && InTile(ts[i], ts[i].count, k)
  }

  lemma InSomeTileSnoc(ts: seq<Tile>, k: nat)
    requires ts != []
    ensures var n := |ts| - 1;
            InSomeTile(ts, k) <==> InSomeTile(ts[..n], k) || InTile(ts[n], ts[n].count, k)
  {
    hide InTile;
    var n := |ts| - 1;
    if InSomeTile(ts[..n], k) {
      var i :| 0 <= i < n && InTile(ts[..n][i], ts[..n][i].count, k);
      assert InTile(ts[i], ts[i].count, k);
    }
    if InSomeTile(ts, k) && !InTile(ts[n], ts[n].count, k) {
      var i :| 0 <= i < |ts| && InTile(ts[i], ts[i].count, k);
      assert ts[..n][i] == ts[i];
    }
  }

  lemma {:induction false} TilesCover(ts: seq<Tile>, k: nat)
    requires TilesOk(ts) && k < CELLS
    ensures Covered(AllOps(ts), k) <==> InSomeTile(ts, k)
  {
    NothingCovered(k);
    if ts != [] {
      hide InTile, TileOps, Covered;
      var n := |ts| - 1;
      TilesCover(ts[..n], k);
      TileCovers(ts[n], ts[n].count, k);
      CoveredConcat(AllOps(ts[..n]), TileOps(ts[n], ts[n].count), k);
      InSomeTileSnoc(ts, k);
    }
  }

  /** Two tiles that paint the same rectangle. */
  predicate SameArea(t: Tile, u: Tile) {
    t.page == u.page && t.column == u.column && t.width * t.count == u.width * u.count
  }

  /** Every tile of the first list is matched in area by one of the second. */
  ghost predicate AreaWithin(ts: seq<Tile>, us: seq<Tile>) {
    forall i :: 0 <= i < |ts| ==> Matched(ts[i], us)
  }

  ghost predicate Matched(t: Tile, us: seq<Tile>) {
    exists j :: 0 <= j < |us| && SameArea(t, us[j])
  }

  /** Redrawing without clearing leaves nothing of the old picture when every old area is drawn again. */
  lemma RedrawEqualsFresh(s: Bytes, before: seq<Tile>, after: seq<Tile>)
    requires |s| == CELLS && TilesOk(before) && TilesOk(after) && AreaWithin(before, after)
    ensures DrawTiles(DrawTiles(s, before), after) == DrawTiles(s, after)
  {
    DrawTilesIsPaint(s, before);
    DrawTilesIsPaint(DrawTiles(s, before), after);
    DrawTilesIsPaint(s, after);
    forall k | 0 <= k < CELLS && Covered(AllOps(before), k) ensures Covered(AllOps(after), k) {
      TilesCover(before, k);
      TilesCover(after, k);
      assert InSomeTile(before, k);
      var i :| 0 <= i < |before| && InTile(before[i], before[i].count, k);
      assert Matched(before[i], after);
      var j :| 0 <= j < |after| && SameArea(before[i], after[j]);
      assert InTile(after[j], after[j].count, k);
      assert InSomeTile(after, k);
    }
    Repaint(s, AllOps(before), AllOps(after));
  }
}
