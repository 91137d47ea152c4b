/** The OLED driver's loops over the panel's command and data interface. The panel keeps a page pointer and a
    column pointer; data writes advance the column. */
module Oled {
  import opened Octets
  import opened Display

  class Panel {
    const gram: array<Octet>
    var page: nat
    var column: nat
    var contrast: nat
    var contrastNext: bool   // the next command byte is the contrast argument

    ghost predicate Valid()
      reads this
    {
      gram.Length == CELLS && page < PAGES && column < COLUMNS && !contrastNext
    }

    constructor ()
      ensures Valid() && gram[..] == Blank(CELLS) && fresh(gram)
    {
      gram := new Octet[CELLS](_ => ZERO);
      page, column, contrast, contrastNext := 0, 0, 0xEF, false;
      new;
      assert gram[..] == Blank(CELLS);
    }

    /** Commands never touch the display memory. */
    method SendCmd(c: nat)
      requires gram.Length == CELLS && page < PAGES && column < COLUMNS && c < 256
      modifies `page, `column, `contrast, `contrastNext
      ensures page < PAGES && column < COLUMNS
      ensures contrastNext == (!old(contrastNext) && c == 0x81)
      ensures !old(contrastNext) && 0xB0 <= c <= 0xB7 ==> page == c - 0xB0 && column == old(column)
      ensures !old(contrastNext) && c < 0x10 ==> page == old(page) && column == old(column) / 16 * 16 + c
      ensures !old(contrastNext) && 0x10 <= c < 0x18 ==>
                page == old(page) && column == (c - 0x10) * 16 + old(column) % 16
      ensures old(contrastNext) ==> contrast == c && page == old(page) && column == old(column)
      ensures !old(contrastNext) ==> contrast == old(contrast)
    {
      if contrastNext {
        contrast, contrastNext := c, false;
      } else if c == 0x81 {
        contrastNext := true;
      } else if 0xB0 <= c <= 0xB7 {
        page := c - 0xB0;
      } else if c < 0x10 {
        column := column / 16 * 16 + c;
      } else if c < 0x18 {
        column := (c - 0x10) * 16 + column % 16;
      }
    }

    method PageSet(p: nat)
      requires Valid() && p < PAGES
      modifies `page, `column, `contrast, `contrastNext
      ensures Valid() && page == p && column == old(column) && contrast == old(contrast)
    {
      SendCmd(0xB0 + p);
    }

    method ColumnSet(c: nat)
      requires Valid() && c < COLUMNS
      modifies `page, `column, `contrast, `contrastNext
      ensures Valid() && page == old(page) && column == c && contrast == old(contrast)
    {
      SendCmd(0x10 + c / 16);
      SendCmd(c % 16);
      Nibbles(c, old(column) % 16);
    }

    /** One data byte: into the cell under the pointers, and on to the next column. */
    method PutByte(b: Octet)
      requires Valid()
      modifies `column, gram
      ensures Valid() && column == if old(column) + 1 == COLUMNS then 0 else old(column) + 1
      ensures gram[..] == old(gram[..])[COLUMNS * page + old(column) := b]
    {
      gram[COLUMNS * page + column] := b;
      column := if column + 1 == COLUMNS then 0 else column + 1;
    }

    /** A data transfer that stays within the row. */
    method SendData(data: Bytes)
      requires Valid() && column + |data| <= COLUMNS
      modifies `column, gram
      ensures Valid()
      ensures column == (old(column) + |data|) % COLUMNS
      ensures gram[..] == Apply(old(gram[..]), Blit(COLUMNS * page + old(column), data))
    {
      hide Apply, Blank;
      ghost var base, g0 := COLUMNS * page + column, gram[..];
      var start := column;
      var i := 0;
      NothingWritten(g0, base);
      while i < |data|
        invariant 0 <= i <= |data| && Valid()
        invariant column == if start + i == COLUMNS then 0 else start + i
        invariant gram[..] == Apply(g0, Blit(base, data[..i]))
      {
        WriteNext(g0, base, data, i);
        PutByte(data[i]);
        i := i + 1;
      }
      assert data[..|data|] == data;
    }

    /** `draw_words` (width 16) and `draw_half_words` (width 8): glyph by glyph, upper row then lower row. */
    method DrawGlyphs(t: Tile)
      requires Valid() && TileOk(t) && 0 < t.width
      modifies `page, `column, `contrast, `contrastNext, gram
      ensures Valid()
      ensures gram[..] == DrawTile(old(gram[..]), t)
    {
      ghost var g0 := gram[..];
      var c := 0;
      while c < t.count
        invariant 0 <= c <= t.count && Valid()
        invariant AllFit(TileOps(t, c), CELLS)
        invariant gram[..] == Paint(g0, TileOps(t, c))
      {
        RowBounds(t, c);
        PaintNextGlyph(g0, t, c);
        DrawRow(t, c, 0);
        DrawRow(t, c, 1);
        c := c + 1;
      }
    }

    method DrawRow(t: Tile, c: nat, p: nat)
      requires Valid() && TileOk(t) && c < t.count && p < 2 && 0 < t.width
      modifies `page, `column, `contrast, `contrastNext, gram
      ensures Valid()
      ensures gram[..] == Apply(old(gram[..]), GlyphRow(t, c, p))
    {
      RowBounds(t, c);
      PageSet(t.page + p);
      ColumnSet(t.width * c + 8 * t.column);
      SendData(t.data[2 * (t.width * c) + t.width * p..][..t.width]);
    }

    method ClearOled()
      requires Valid()
      modifies `page, `column, `contrast, `contrastNext, gram
      ensures Valid()
      ensures gram[..] == Blank(CELLS)
    {
      hide Apply, Blank, Cleared;
      ghost var g0 := gram[..];
      var p := 0;
      NothingCleared(g0);
      while p < PAGES
        invariant 0 <= p <= PAGES && Valid()
        invariant gram[..] == Cleared(g0, COLUMNS * p)
      {
        ClearRow(p, g0);
        p := p + 1;
      }
      AllCleared(g0);
    }

    /** The inner loop: one row of single zero bytes. */
    method ClearRow(p: nat, ghost g0: Bytes)
      requires Valid() && p < PAGES && |g0| == CELLS && gram[..] == Cleared(g0, COLUMNS * p)
      modifies `page, `column, `contrast, `contrastNext, gram
      ensures Valid() && gram[..] == Cleared(g0, COLUMNS * p + COLUMNS)
    {
      hide Apply, Cleared;
      PageSet(p);
      ColumnSet(0);
      var c := 0;
      while c < COLUMNS
        invariant 0 <= c <= COLUMNS && Valid()
        invariant page == p && column == if c == COLUMNS then 0 else c
        invariant gram[..] == Cleared(g0, COLUMNS * p + c)
      {
        ClearNext(g0, COLUMNS * p + c);
        SendData([ZERO]);
        c := c + 1;
      }
    }

    /** `clear_half_part` of one glyph. */
    method ClearHalfPart(p: nat, c: nat)
      requires Valid() && p + 2 <= PAGES && 8 * c + 8 <= COLUMNS
      modifies `page, `column, `contrast, `contrastNext, gram
      ensures Valid()
      ensures gram[..] == DrawTile(old(gram[..]), Tile(p, c, 8, 1, Blank(16)))
    {
      DrawGlyphs(Tile(p, c, 8, 1, Blank(16)));
    }
  }

  /** The two nibble commands leave nothing of the old column. */
  lemma Nibbles(c: nat, x: nat)
    requires x < 16
    ensures (c / 16 * 16 + x) / 16 * 16 + c % 16 == c
  {
    assert (c / 16 * 16 + x) / 16 == c / 16;
  }

  lemma NothingWritten(g: Bytes, base: nat)
    requires base <= |g|
    ensures Apply(g, Blit(base, [])) == g
  {
  }

  lemma WriteNext(g: Bytes, base: nat, data: Bytes, i: nat)
    requires base + |data| <= |g| && i < |data|
    ensures Apply(g, Blit(base, data[..i]))[base + i := data[i]] == Apply(g, Blit(base, data[..i + 1]))
  {
  }

  /** The first n cells blank, the others as they were. */
  function Cleared(g: Bytes, n: nat): (s: Bytes)
    requires n <= |g|
    ensures |s| == |g|
  {
    Blank(n) + g[n..]
  }

  lemma NothingCleared(g: Bytes)
    ensures Cleared(g, 0) == g
  {
  }

  lemma AllCleared(g: Bytes)
    requires |g| == CELLS
    ensures Cleared(g, CELLS) == Blank(CELLS)
  {
  }

  lemma ClearNext(g: Bytes, n: nat)
    requires n < |g|
    ensures Apply(Cleared(g, n), Blit(n, [ZERO])) == Cleared(g, n + 1)
  {
  }
}
