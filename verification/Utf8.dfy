/** Glyph lookup for UTF-8 strings: two pointer walks over NUL-terminated bytes, proved to be a search in
    lists of characters. */
module Utf8 {
  import opened Copying
  import opened Octets
  import opened Display

  type Char = seq<bv8>

  predicate Tail(b: bv8) {
    0x80 <= b <= 0xBF
  }

  /** One well-formed UTF-8 sequence (section 3 of RFC 3629). */
  predicate WellFormed(c: Char) {
    || (|c| == 1 && c[0] < 0x80)
    || (|c| == 2 && 0xC2 <= c[0] <= 0xDF && Tail(c[1]))
    || (|c| == 3 && 0xE0 <= c[0] <= 0xEF && Tail(c[1]) && Tail(c[2])
        && (c[0] == 0xE0 ==> 0xA0 <= c[1]) && (c[0] == 0xED ==> c[1] <= 0x9F))
    || (|c| == 4 && 0xF0 <= c[0] <= 0xF4 && Tail(c[1]) && Tail(c[2]) && Tail(c[3])
        && (c[0] == 0xF0 ==> 0x90 <= c[1]) && (c[0] == 0xF4 ==> c[1] <= 0x8F))
  }

  /** A character that can stand in a NUL-terminated string. */
  predicate Printable(c: Char) {
    WellFormed(c) && c[0] != 0
  }

  /** The glyph table holds two- and three-byte characters only. */
  predicate TableChar(c: Char) {
    WellFormed(c) && 2 <= |c| <= 3
  }

  function StringStep(lead: bv8): nat {
    if lead < 0x80 then 1 else if lead < 0xE0 then 2 else if lead < 0xF0 then 3 else 4
  }

  function TableStep(lead: bv8): nat {
    if lead < 0xE0 then 2 else 3
  }

  lemma StepsAreLengths(c: Char)
    requires WellFormed(c)
    ensures |c| > 0 && StringStep(c[0]) == |c|
    ensures TableChar(c) ==> TableStep(c[0]) == |c| && c[0] != 0
  {
  }

  function Encode(cs: seq<Char>): seq<bv8> {
    if cs == [] then [] else Encode(cs[..|cs| - 1]) + cs[|cs| - 1]
  }

  lemma {:induction false} EncodePrefix(cs: seq<Char>, k: nat)
    requires k < |cs|
    ensures var p := |Encode(cs[..k])|;
            p + |cs[k]| <= |Encode(cs)| && Encode(cs)[p..p + |cs[k]|] == cs[k]
            && |Encode(cs[..k + 1])| == p + |cs[k]|
  {
    var n := |cs| - 1;
    assert cs[..k + 1][..k] == cs[..k];
    if k < n {
      EncodePrefix(cs[..n], k);
      assert cs[..n][..k] == cs[..k];
    } else {
      assert cs[..k] == cs[..n];
      assert cs[..k + 1] == cs;
    }
  }

  lemma {:induction false} EncodeMonotone(cs: seq<Char>, k: nat)
    requires k <= |cs|
    ensures |Encode(cs[..k])| <= |Encode(cs)|
    decreases |cs| - k
  {
    if k < |cs| {
      EncodePrefix(cs, k);
      EncodeMonotone(cs, k + 1);
    } else {
      assert cs[..k] == cs;
    }
  }

  /** A NUL-terminated string in memory. */
  predicate Holds(memory: seq<bv8>, cs: seq<Char>) {
    memory == Encode(cs) + [0]
  }

  /** What the walk sees at the k-th boundary: the lead byte of character k, or the terminator at the end. */
  lemma AtBoundary(memory: seq<bv8>, cs: seq<Char>, k: nat)
    requires Holds(memory, cs) && k <= |cs| && forall i :: 0 <= i < |cs| ==> |cs[i]| > 0 && cs[i][0] != 0
    ensures var p := |Encode(cs[..k])|;
            && p < |memory| && (memory[p] == 0 <==> k == |cs|)
            && (k < |cs| ==> p + |cs[k]| < |memory| && memory[p] == cs[k][0] && memory[p..p + |cs[k]|] == cs[k]
                             && |Encode(cs[..k + 1])| == p + |cs[k]|)
  {
    var p := |Encode(cs[..k])|;
    EncodeMonotone(cs, k);
    if k < |cs| {
      EncodePrefix(cs, k);
      assert memory[p..p + |cs[k]|] == Encode(cs)[p..p + |cs[k]|];
      assert memory[p] == memory[p..p + |cs[k]|][0];
    } else {
      assert cs[..k] == cs;
    }
  }

  // ---------- the list search it should be ----------

  datatype Font = Font(chars: seq<Char>, glyphs: Bytes)

  predicate FontOk(f: Font) {
    |f.glyphs| == 32 * |f.chars| && forall i :: 0 <= i < |f.chars| ==> TableChar(f.chars[i])
  }

  predicate FirstAt(cs: seq<Char>, c: Char, i: nat) {
    i < |cs| && cs[i] == c && c !in cs[..i]
  }

  /** The block of the first table character equal to c, or a blank block. */
  function GlyphOf(f: Font, c: Char): (g: Bytes)
    requires FontOk(f)
    ensures |g| == 32
    ensures c !in f.chars ==> g == Blank(32)
    ensures forall i: nat :: FirstAt(f.chars, c, i) ==> g == f.glyphs[32 * i..32 * i + 32]
  {
    GlyphFrom(f, c, 0)
  }

  function GlyphFrom(f: Font, c: Char, from: nat): (g: Bytes)
    requires FontOk(f) && from <= |f.chars| && c !in f.chars[..from]
    ensures |g| == 32
    ensures c !in f.chars ==> g == Blank(32)
    ensures forall i: nat :: FirstAt(f.chars, c, i) ==> g == f.glyphs[32 * i..32 * i + 32]
    decreases |f.chars| - from
  {
    if from == |f.chars| then
      assert f.chars[..from] == f.chars;
      Blank(32)
    else if f.chars[from] == c then
      FirstUnique(f.chars, c, from);
      f.glyphs[32 * from..32 * from + 32]
    else
      assert f.chars[..from + 1] == f.chars[..from] + [f.chars[from]];
      GlyphFrom(f, c, from + 1)
  }

  lemma FirstUnique(cs: seq<Char>, c: Char, from: nat)
    requires from < |cs| && cs[from] == c && c !in cs[..from]
    ensures c in cs && forall i: nat :: FirstAt(cs, c, i) ==> i == from
  {
    forall i: nat | i != from ensures !FirstAt(cs, c, i) {
      if i < from {
        assert cs[i] == cs[..from][i];
      } else if i < |cs| {
        assert cs[..i][from] == c;
      }
    }
  }

  function GlyphsOf(f: Font, cs: seq<Char>): (g: Bytes)
    requires FontOk(f)
    ensures |g| == 32 * |cs|
  {
    if cs == [] then [] else GlyphsOf(f, cs[..|cs| - 1]) + GlyphOf(f, cs[|cs| - 1])
  }

  /** Block k of the buffer belongs to character k. */
  lemma {:induction false} GlyphsAt(f: Font, cs: seq<Char>, k: nat, b: nat)
    requires FontOk(f) && k < |cs| && b < 32
    ensures GlyphsOf(f, cs)[32 * k + b] == GlyphOf(f, cs[k])[b]
  {
    hide GlyphOf, FontOk;
    if k < |cs| - 1 { GlyphsAt(f, cs[..|cs| - 1], k, b); }
  }

  /** What is shown is the string's beginning, cut at `wordLen` characters. */
  lemma ShownIs(cs: seq<Char>, wordLen: nat)
    ensures Shown(cs, wordLen) <= cs && |Shown(cs, wordLen)| == if |cs| < wordLen then |cs| else wordLen
  {
  }

  function Shown(cs: seq<Char>, wordLen: nat): seq<Char> {
    if |cs| <= wordLen then cs else cs[..wordLen]
  }

  lemma NoGlyphs(f: Font, cs: seq<Char>)
    requires FontOk(f)
    ensures GlyphsOf(f, cs[..0]) + Blank(512) == Blank(512)
  {
  }

  // ---------- the loops ----------

  predicate Visible(cs: seq<Char>) {
    forall i :: 0 <= i < |cs| ==> |cs[i]| > 0 && cs[i][0] != 0
  }

  /** A walk over the characters stands at offset p, before character k or at the terminator. */
  predicate At(memory: seq<bv8>, cs: seq<Char>, k: nat, p: nat) {
    k <= |cs| && p == |Encode(cs[..k])| && p < |memory| && (memory[p] == 0 <==> k == |cs|)
  }

  lemma AtStart(memory: seq<bv8>, cs: seq<Char>)
    requires Holds(memory, cs) && Visible(cs)
    ensures At(memory, cs, 0, 0)
  {
    AtBoundary(memory, cs, 0);
    assert cs[..0] == [];
  }

  /** At a character the walk reads it whole, and its length leads to the next one. */
  lemma AtNext(memory: seq<bv8>, cs: seq<Char>, k: nat, p: nat)
    requires Holds(memory, cs) && Visible(cs) && At(memory, cs, k, p) && k < |cs|
    ensures p + |cs[k]| < |memory| && 0 < |cs[k]| && memory[p] == cs[k][0] && memory[p..p + |cs[k]|] == cs[k]
    ensures At(memory, cs, k + 1, p + |cs[k]|)
  {
    hide Encode, Holds;
    AtBoundary(memory, cs, k);
    AtBoundary(memory, cs, k + 1);
  }

  lemma FontVisible(f: Font)
    requires FontOk(f)
    ensures Visible(f.chars) && |f.glyphs| == 32 * |f.chars|
    ensures forall i :: 0 <= i < |f.chars| ==> TableStep(f.chars[i][0]) == |f.chars[i]|
  {
    hide WellFormed, TableStep, StringStep;
    forall i | 0 <= i < |f.chars|
      ensures |f.chars[i]| > 0 && f.chars[i][0] != 0 && TableStep(f.chars[i][0]) == |f.chars[i]|
    {
      StepsAreLengths(f.chars[i]);
    }
  }

  lemma PrintableVisible(cs: seq<Char>)
    requires forall i :: 0 <= i < |cs| ==> Printable(cs[i])
    ensures Visible(cs)
    ensures forall i :: 0 <= i < |cs| ==> StringStep(cs[i][0]) == |cs[i]|
  {
    hide WellFormed, TableStep, StringStep;
    forall i | 0 <= i < |cs| ensures |cs[i]| > 0 && cs[i][0] != 0 && StringStep(cs[i][0]) == |cs[i]| {
      StepsAreLengths(cs[i]);
    }
  }

  lemma NotYet(cs: seq<Char>, c: Char, k: nat)
    requires k < |cs| && c !in cs[..k] && cs[k] != c
    ensures c !in cs[..k + 1]
  {
    assert cs[..k + 1] == cs[..k] + [cs[k]];
  }

  /** The inner walk: compare the string character at `at` against the table entries in turn. */
  method FindGlyph(memory: seq<bv8>, at: nat, step: nat, table: seq<bv8>, f: Font) returns (glyph: Bytes)
    requires FontOk(f) && Holds(table, f.chars) && 0 < step && at + step <= |memory|
    ensures glyph == GlyphOf(f, memory[at..at + step])
  {
    hide WellFormed, TableChar, TableStep, GlyphOf, Encode, Holds, At, Visible, FontOk;
    var c := memory[at..at + step];
    var q: nat, idx: nat := 0, 0;
    glyph := Blank(32);
    FontVisible(f);
    AtStart(table, f.chars);
    AtEnd(table, f.chars, idx, q);
    while table[q] != 0
      invariant 0 <= idx <= |f.chars| && At(table, f.chars, idx, q) && q < |table|
      invariant c !in f.chars[..idx] && glyph == Blank(32)
      invariant table[q] == 0 <==> idx == |f.chars|
      decreases |f.chars| - idx
    {
      AtNext(table, f.chars, idx, q);
      var tStep := TableStep(table[q]);
      if step == tStep && memory[at..at + step] == table[q..q + step] {
        assert FirstAt(f.chars, c, idx);
        glyph := f.glyphs[32 * idx..32 * idx + 32];
        return;
      }
      NotYet(f.chars, c, idx);
      q := q + tStep;
      idx := idx + 1;
      AtEnd(table, f.chars, idx, q);
    }
    assert f.chars[..idx] == f.chars;
  }

  /** The outer walk: up to `wordLen` characters of the string, each given its glyph block or left blank. */
  method Lookup(memory: seq<bv8>, wordLen: nat, table: seq<bv8>, f: Font, ghost cs: seq<Char>)
    returns (strw: Bytes, k: nat)
    requires FontOk(f) && Holds(table, f.chars) && wordLen <= 16
    requires Holds(memory, cs) && forall i :: 0 <= i < |cs| ==> Printable(cs[i])
    ensures k == |Shown(cs, wordLen)|
    ensures strw == GlyphsOf(f, Shown(cs, wordLen)) + Blank(512 - 32 * k)
  {
    hide WellFormed, Printable, StringStep, GlyphOf, GlyphsOf, Encode, Holds, At, Visible, FontOk, Blank;
    var buffer := new Octet[512](_ => ZERO);
    var p: nat := 0;
    k := 0;
    PrintableVisible(cs);
    AtStart(memory, cs);
    AtEnd(memory, cs, k, p);
    NoGlyphs(f, cs);
    BlankIs(buffer[..]);
    while memory[p] != 0 && k < wordLen
      invariant 0 <= k <= |cs| && k <= wordLen && At(memory, cs, k, p) && p < |memory|
      invariant memory[p] == 0 <==> k == |cs|
      invariant buffer[..] == GlyphsOf(f, cs[..k]) + Blank(512 - 32 * k)
      decreases |cs| - k
    {
      AtNext(memory, cs, k, p);
      var step := StringStep(memory[p]);
      var glyph := FindGlyph(memory, p, step, table, f);
      GlyphsSnoc(f, cs, k, buffer[..], glyph);
      CopyGlyph(buffer, k, glyph);
      p := p + step;
      k := k + 1;
      AtEnd(memory, cs, k, p);
    }
    assert cs[..|cs|] == cs;
    strw := buffer[..];
  }

  lemma AtEnd(memory: seq<bv8>, cs: seq<Char>, k: nat, p: nat)
    requires At(memory, cs, k, p)
    ensures k <= |cs| && p < |memory| && (memory[p] == 0 <==> k == |cs|)
  {
  }

  lemma BlankIs(b: Bytes)
    requires |b| == 512 && forall i :: 0 <= i < |b| ==> b[i] == ZERO
    ensures b == Blank(512)
  {
  }

  method CopyGlyph(buffer: array<Octet>, k: nat, glyph: Bytes)
    requires buffer.Length == 512 && k < 16 && |glyph| == 32
    modifies buffer
    ensures buffer[..] == old(buffer[..])[..32 * k] + glyph + old(buffer[..])[32 * k + 32..]
  {
    hide Copied;
    ghost var g0 := buffer[..];
    var j := 0;
    CopiedEnds(g0, 32 * k, glyph);
    while j < 32
      invariant 0 <= j <= 32 && buffer[..] == Copied(g0, 32 * k, glyph, j)
    {
      CopyNext(g0, 32 * k, glyph, j);
      ghost var before := buffer[..];
      buffer[k * 32 + j] := glyph[j];
      assert buffer[..] == before[32 * k + j := glyph[j]];
      j := j + 1;
    }
  }

  lemma GlyphsSnoc(f: Font, cs: seq<Char>, k: nat, g0: Bytes, glyph: Bytes)
    requires FontOk(f) && k < |cs| && k < 16 && glyph == GlyphOf(f, cs[k])
    requires g0 == GlyphsOf(f, cs[..k]) + Blank(512 - 32 * k)
    ensures g0[..32 * k] + glyph + g0[32 * k + 32..] == GlyphsOf(f, cs[..k + 1]) + Blank(512 - 32 * (k + 1))
  {
    assert cs[..k + 1][..k] == cs[..k];
    assert g0[..32 * k] == GlyphsOf(f, cs[..k]);
    assert g0[32 * k + 32..] == Blank(512 - 32 * (k + 1));
  }
}
