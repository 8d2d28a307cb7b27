/** The text rasteriser of the plugins: clipped fills, scaled glyphs, and strings of them. */
module PluginText {
  import opened Thumb

  const GLYPH_W: nat := 5
  const GLYPH_H: nat := 7
  const CELL_W: nat := 6
  const FIRST: nat := 0x20
  const LAST: nat := 0x7e
  const I32_MAX: int := 0x7fff_ffff

  type Byte = b: int | 0 <= b < 256 witness 0

  type Dim = n: int | 0 <= n < 0x1_0000_0000 witness 0

  type I32 = n: int | -0x8000_0000 <= n < 0x8000_0000 witness 0

  /** Five columns of seven bits for each printable character, the top row lowest. */
  type Font = f: seq<Byte> | |f| == (LAST - FIRST + 1) * GLYPH_W witness seq((LAST - FIRST + 1) * GLYPH_W, _ => 0)

  /** Drawn for what the font does not cover: a hollow box. */
  const MISSING: seq<Byte> := [0x7f, 0x41, 0x41, 0x41, 0x7f]

  function Glyph(font: Font, ch: Byte): (g: seq<Byte>)
    ensures |g| == GLYPH_W
  {
    if ch < FIRST || ch > LAST then MISSING else font[(ch - FIRST) * GLYPH_W..(ch - FIRST) * GLYPH_W + GLYPH_W]
  }

  predicate Bit(bits: Byte, row: nat) {
    bits / PowOf(row) % 2 == 1
  }

  function PowOf(row: nat): (p: nat)
    ensures p > 0
  {
    if row == 0 then 1 else 2 * PowOf(row - 1)
  }

  /** The character's pixel in column col and row row is set. */
  predicate Ink(font: Font, ch: Byte, col: nat, row: nat)
    requires col < GLYPH_W
  {
    row < GLYPH_H && Bit(Glyph(font, ch)[col], row)
  }

  // ---- targets ------------------------------------------------------------------------------

  /** Where to draw: w by h pixels, rows `stride` apart. */
  datatype Target = Target(px: array?<int>, w: Dim, h: Dim, stride: Dim)
  {
    predicate Ok() {
      px != null && w != 0 && h != 0 && stride >= w
    }

    /** The pixels it speaks of are there. */
    predicate Backed() {
      Ok() ==> (h - 1) * stride + w <= px.Length
    }
  }

  function Place(t: Target, x: int, y: int): int {
    y * t.stride + x
  }

  type Pixels = set<(int, int)>

  predicate OnTarget(t: Target, p: (int, int)) {
    0 <= p.0 < t.w && 0 <= p.1 < t.h
  }

  /** Place k is that of one of the pixels. */
  ghost predicate Hit(t: Target, on: Pixels, k: int) {
    exists p :: p in on && Place(t, p.0, p.1) == k
  }

  /** The pixels of `on` have the colour, and all else is as it was, the gap between the
      rows too. */
  ghost predicate Painted(t: Target, before: seq<int>, after: seq<int>, on: Pixels, colour: int) {
    && |after| == |before|
    && (forall p :: p in on ==> OnTarget(t, p) && 0 <= Place(t, p.0, p.1) < |after| && after[Place(t, p.0, p.1)] == colour)
    && (forall k :: 0 <= k < |after| && !Hit(t, on, k) ==> after[k] == before[k])
  }

  lemma PaintedTwice(t: Target, a: seq<int>, b: seq<int>, c: seq<int>, first: Pixels, second: Pixels, colour: int)
    requires Painted(t, a, b, first, colour) && Painted(t, b, c, second, colour)
    ensures Painted(t, a, c, first + second, colour)
  {
    forall p | p in first + second
      ensures OnTarget(t, p) && 0 <= Place(t, p.0, p.1) < |c| && c[Place(t, p.0, p.1)] == colour
    {
      var k := Place(t, p.0, p.1);
      if p !in second && Hit(t, second, k) {
        var q :| q in second && Place(t, q.0, q.1) == k;
      }
    }
    forall k | 0 <= k < |c| && !Hit(t, first + second, k)
      ensures c[k] == a[k]
    {
      NotHit(t, first, second, k);
    }
  }

  lemma NotHit(t: Target, first: Pixels, second: Pixels, k: int)
    ensures Hit(t, first + second, k) <==> Hit(t, first, k) || Hit(t, second, k)
  {
    if Hit(t, first, k) {
      var p :| p in first && Place(t, p.0, p.1) == k;
      assert p in first + second;
    }
    if Hit(t, second, k) {
      var p :| p in second && Place(t, p.0, p.1) == k;
      assert p in first + second;
    }
  }

  lemma NothingPainted(t: Target, a: seq<int>, colour: int)
    ensures Painted(t, a, a, {}, colour)
  {
  }

  // ---- clipping --------------------------------------------------------------------------------

  /** [v, v + n) within [0, limit). */
  function Clip(v: int, n: int, limit: Dim): (int, int) {
    var a := if v < 0 then 0 else v;
    var b := if v + n > limit then limit else v + n;
    if n <= 0 || b <= a then (0, 0) else (a, b - a)
  }

  lemma ClipExact(v: int, n: int, limit: Dim)
    ensures var (lo, count) := Clip(v, n, limit);
      && 0 <= lo && 0 <= count && lo + count <= limit
      && forall i :: InSpan(lo, count, i) <==> 0 <= i < limit && InSpan(v, n, i)
  {
  }

  predicate InSpan(v: int, n: int, i: int) {
    v <= i < v + n
  }

  /** The pixels of the target in the w by h rectangle at (x, y). */
  ghost function RectOf(t: Target, x: int, y: int, w: int, h: int): Pixels {
    set i, j | 0 <= i < t.w && 0 <= j < t.h && InSpan(x, w, i) && InSpan(y, h, j) :: (i, j)
  }

  lemma RowBelow(stride: nat, j: nat, k: nat)
    requires j < k
    ensures j * stride + stride <= k * stride
    decreases k - j
  {
    if j + 1 < k {
      RowBelow(stride, j + 1, k);
    }
  }

  lemma PlaceInside(t: Target, x: int, y: int)
    requires t.Ok() && t.Backed() && 0 <= x < t.w && 0 <= y < t.h
    ensures 0 <= Place(t, x, y) < t.px.Length
  {
    NotNegative(y, t.stride);
    if y < t.h - 1 {
      RowBelow(t.stride, y, t.h - 1);
    }
  }

  lemma NotNegative(a: nat, b: nat)
    ensures a * b >= 0
  {
  }

  lemma PlacesDiffer(t: Target, x: int, y: int, i: int, j: int)
    requires t.Ok() && 0 <= x < t.w && 0 <= i < t.w && 0 <= y && 0 <= j
    ensures Place(t, x, y) == Place(t, i, j) <==> x == i && y == j
  {
    if y < j {
      RowBelow(t.stride, y, j);
    } else if j < y {
      RowBelow(t.stride, j, y);
    }
  }

  // ---- a filled rectangle ---------------------------------------------------------------------

  /** One row of a fill. */
  method FillRow(px: array<int>, from: nat, n: nat, colour: int)
    requires from + n <= px.Length
    modifies px
    ensures forall k :: from <= k < from + n ==> px[k] == colour
    ensures forall k :: 0 <= k < px.Length && !(from <= k < from + n) ==> px[k] == old(px[k])
  {
    for c := 0 to n
      invariant forall k :: from <= k < from + c ==> px[k] == colour
      invariant forall k :: 0 <= k < px.Length && !(from <= k < from + c) ==> px[k] == old(px[k])
    {
      px[from + c] := colour;
    }
  }

  /** A run of places within a row is a rectangle one row high. */
  lemma RowPainted(t: Target, before: seq<int>, after: seq<int>, x0: nat, cols: nat, y: nat, colour: int)
    requires t.Ok() && t.Backed() && x0 + cols <= t.w && y < t.h && |before| == |after| == t.px.Length
    requires forall k :: Place(t, x0, y) <= k < Place(t, x0, y) + cols ==> 0 <= k < |after| && after[k] == colour
    requires forall k :: 0 <= k < |after| && !(Place(t, x0, y) <= k < Place(t, x0, y) + cols) ==> after[k] == before[k]
    ensures Painted(t, before, after, RectOf(t, x0, y, cols, 1), colour)
  {
    var on := RectOf(t, x0, y, cols, 1);
    forall p | p in on
      ensures OnTarget(t, p) && 0 <= Place(t, p.0, p.1) < |after| && after[Place(t, p.0, p.1)] == colour
    {
      PlaceInside(t, p.0, p.1);
      assert p.1 == y && Place(t, p.0, y) == Place(t, x0, y) + (p.0 - x0);
    }
    forall k | 0 <= k < |after| && !Hit(t, on, k)
      ensures after[k] == before[k]
    {
      RunHit(t, x0, cols, y, k);
    }
  }

  lemma RunHit(t: Target, x0: nat, cols: nat, y: nat, k: int)
    requires x0 + cols <= t.w && y < t.h
    ensures Place(t, x0, y) <= k < Place(t, x0, y) + cols ==> Hit(t, RectOf(t, x0, y, cols, 1), k)
  {
    if Place(t, x0, y) <= k < Place(t, x0, y) + cols {
      var p := (x0 + (k - Place(t, x0, y)), y);
      assert p in RectOf(t, x0, y, cols, 1) && Place(t, p.0, p.1) == k;
    }
  }

  /** One row more. */
  lemma RectGrows(t: Target, x: int, y: int, w: int, h: nat)
    ensures RectOf(t, x, y, w, h + 1) == RectOf(t, x, y, w, h) + RectOf(t, x, y + h, w, 1)
  {
  }

  lemma RectClipped(t: Target, x: int, y: int, w: int, h: int)
    ensures var (x0, cols) := Clip(x, w, t.w); var (y0, rows) := Clip(y, h, t.h);
      RectOf(t, x, y, w, h) == RectOf(t, x0, y0, cols, rows)
  {
    hide Clip;
    ClipExact(x, w, t.w);
    ClipExact(y, h, t.h);
    var (x0, cols) := Clip(x, w, t.w);
    var (y0, rows) := Clip(y, h, t.h);
    forall p: (int, int)
      ensures p in RectOf(t, x, y, w, h) <==> p in RectOf(t, x0, y0, cols, rows)
    {
      assert InSpan(x0, cols, p.0) <==> 0 <= p.0 < t.w && InSpan(x, w, p.0);
      assert InSpan(y0, rows, p.1) <==> 0 <= p.1 < t.h && InSpan(y, h, p.1);
    }
  }

  lemma RectEmpty(t: Target, x: int, y: int, w: int, h: int)
    requires w <= 0 || h <= 0
    ensures RectOf(t, x, y, w, h) == {}
  {
  }

  /** One row of a rectangle that lies on the target. */
  method PaintRow(t: Target, x0: nat, cols: nat, y: nat, colour: int)
    requires t.Ok() && t.Backed() && x0 + cols <= t.w && cols > 0 && y < t.h
    modifies t.px
    ensures Painted(t, old(t.px[..]), t.px[..], RectOf(t, x0, y, cols, 1), colour)
  {
    hide Painted, RectOf, Place;
    ghost var before := t.px[..];
    PlaceInside(t, x0, y);
    PlaceInside(t, x0 + cols - 1, y);
    PlaceRight(t, x0, cols - 1, y);
    FillRow(t.px, Place(t, x0, y), cols, colour);
    RowPainted(t, before, t.px[..], x0, cols, y, colour);
  }

  /** A rectangle that lies on the target, row by row. */
  method PaintRows(t: Target, x0: nat, cols: nat, y0: nat, rows: nat, colour: int)
    requires t.Ok() && t.Backed() && x0 + cols <= t.w && cols > 0 && y0 + rows <= t.h
    modifies t.px
    ensures Painted(t, old(t.px[..]), t.px[..], RectOf(t, x0, y0, cols, rows), colour)
  {
    hide Painted, RectOf, Place;
    ghost var start := t.px[..];
    NothingPainted(t, start, colour);
    RectEmpty(t, x0, y0, cols, 0);
    for r := 0 to rows
      invariant Painted(t, start, t.px[..], RectOf(t, x0, y0, cols, r), colour)
    {
      ghost var before := t.px[..];
      PaintRow(t, x0, cols, y0 + r, colour);
      PaintedTwice(t, start, before, t.px[..], RectOf(t, x0, y0, cols, r), RectOf(t, x0, y0 + r, cols, 1), colour);
      RectGrows(t, x0, y0, cols, r);
    }
  }

  /** A rectangle, clipped to the target: its pixels, and no others. */
  method Fill(t: Target, x: I32, y: I32, w: I32, h: I32, colour: int)
    requires t.Backed()
    modifies if t.px == null then {} else {t.px}
    ensures t.Ok() ==> Painted(t, old(t.px[..]), t.px[..], RectOf(t, x, y, w, h), colour)
    ensures !t.Ok() && t.px != null ==> t.px[..] == old(t.px[..])
  {
    if !t.Ok() {
      return;
    }
    hide Painted, RectOf, Clip, Place, InSpan;
    ClipExact(x, w, t.w);
    ClipExact(y, h, t.h);
    RectClipped(t, x, y, w, h);
    var (x0, cols) := Clip(x, w, t.w);
    var (y0, rows) := Clip(y, h, t.h);
    if cols == 0 || rows == 0 {
      NothingPainted(t, t.px[..], colour);
      RectEmpty(t, x0, y0, cols, rows);
      return;
    }
    PaintRows(t, x0, cols, y0, rows, colour);
  }

  lemma PlaceRight(t: Target, x: int, n: int, y: int)
    ensures Place(t, x + n, y) == Place(t, x, y) + n
  {
  }

  // ---- one character ---------------------------------------------------------------------------

  /** The block of one font pixel, at a place that a 32-bit signed number can name. */
  predicate Nameable(x: int, y: int, scale: nat, col: nat, row: nat) {
    -I32_MAX <= x + col * scale <= I32_MAX && -I32_MAX <= y + row * scale <= I32_MAX
  }

  ghost function BlockOf(t: Target, x: int, y: int, scale: nat, col: nat, row: nat): Pixels {
    RectOf(t, x + col * scale, y + row * scale, scale, scale)
  }

  /** Pixel (i, j) lies in the scale by scale block of some set pixel of the character. */
  ghost predicate InGlyph(font: Font, ch: Byte, x: int, y: int, scale: nat, i: int, j: int) {
    exists col: nat, row: nat :: col < GLYPH_W && Ink(font, ch, col, row)
      && InSpan(x + col * scale, scale, i) && InSpan(y + row * scale, scale, j)
  }

  /** What is drawn of the first `cols` columns and of `rows` rows of the next. */
  ghost predicate Drawn(font: Font, ch: Byte, x: int, y: int, scale: nat, cols: nat, rows: nat, i: int, j: int) {
    exists col: nat, row: nat :: col < GLYPH_W && Ink(font, ch, col, row) && Nameable(x, y, scale, col, row)
      && (col < cols || (col == cols && row < rows))
      && InSpan(x + col * scale, scale, i) && InSpan(y + row * scale, scale, j)
  }

  ghost function GlyphPart(t: Target, font: Font, ch: Byte, x: int, y: int, scale: nat, cols: nat, rows: nat): Pixels {
    set i, j | 0 <= i < t.w && 0 <= j < t.h && Drawn(font, ch, x, y, scale, cols, rows, i, j) :: (i, j)
  }

  /** One more block, if it is set and can be named. */
  lemma PartGrows(t: Target, font: Font, ch: Byte, x: int, y: int, scale: nat, col: nat, row: nat)
    requires col < GLYPH_W
    ensures GlyphPart(t, font, ch, x, y, scale, col, row + 1) ==
      GlyphPart(t, font, ch, x, y, scale, col, row)
      + if Ink(font, ch, col, row) && Nameable(x, y, scale, col, row) then BlockOf(t, x, y, scale, col, row) else {}
  {
    hide Ink, Nameable;
    forall p: (int, int)
      ensures Drawn(font, ch, x, y, scale, col, row + 1, p.0, p.1) <==>
        || Drawn(font, ch, x, y, scale, col, row, p.0, p.1)
        || (Ink(font, ch, col, row) && Nameable(x, y, scale, col, row)
            && InSpan(x + col * scale, scale, p.0) && InSpan(y + row * scale, scale, p.1))
    {
    }
  }

  lemma ColumnDone(t: Target, font: Font, ch: Byte, x: int, y: int, scale: nat, col: nat)
    ensures GlyphPart(t, font, ch, x, y, scale, col, GLYPH_H) == GlyphPart(t, font, ch, x, y, scale, col + 1, 0)
  {
    hide Nameable;
  }

  lemma NoInk(font: Font, ch: Byte, col: nat)
    requires col < GLYPH_W && Glyph(font, ch)[col] == 0
    ensures forall row: nat :: !Ink(font, ch, col, row)
  {
    hide Glyph;
    forall row: nat
      ensures !Ink(font, ch, col, row)
    {
      ZeroDiv(PowOf(row));
    }
  }

  lemma ZeroDiv(p: nat)
    requires p > 0
    ensures 0 / p % 2 == 0
  {
  }

  /** A column without ink adds nothing. */
  lemma BlankColumn(t: Target, font: Font, ch: Byte, x: int, y: int, scale: nat, col: nat)
    requires col < GLYPH_W && forall row: nat :: !Ink(font, ch, col, row)
    ensures GlyphPart(t, font, ch, x, y, scale, col + 1, 0) == GlyphPart(t, font, ch, x, y, scale, col, 0)
  {
    hide Ink, Nameable;
  }

  /** One character, block by block; a block that 32 bits cannot name is left out. */
  method DrawGlyph(t: Target, font: Font, x: int, y: int, ch: Byte, scale: nat, colour: int)
    requires t.Backed() && 0 < scale <= 0xff
    modifies if t.px == null then {} else {t.px}
    ensures t.Ok() ==> Painted(t, old(t.px[..]), t.px[..], GlyphPart(t, font, ch, x, y, scale, GLYPH_W, 0), colour)
    ensures !t.Ok() && t.px != null ==> t.px[..] == old(t.px[..])
  {
    hide Painted, RectOf, GlyphPart, Glyph, Place;
    ghost var start := if t.px == null then [] else t.px[..];
    var g := Glyph(font, ch);
    NoPart(t, font, ch, x, y, scale);
    NothingPainted(t, start, colour);
    for col := 0 to GLYPH_W
      invariant t.Ok() ==> Painted(t, start, t.px[..], GlyphPart(t, font, ch, x, y, scale, col, 0), colour)
      invariant !t.Ok() && t.px != null ==> t.px[..] == start
    {
      var bits := g[col];
      if bits == 0 {
        NoInk(font, ch, col);
        BlankColumn(t, font, ch, x, y, scale, col);
        continue;
      }
      for row := 0 to GLYPH_H
        invariant t.Ok() ==> Painted(t, start, t.px[..], GlyphPart(t, font, ch, x, y, scale, col, row), colour)
        invariant !t.Ok() && t.px != null ==> t.px[..] == start
      {
        PartGrows(t, font, ch, x, y, scale, col, row);
        SameSet(GlyphPart(t, font, ch, x, y, scale, col, row));
        if !Bit(bits, row) {
          continue;
        }
        var px, py := x + col * scale, y + row * scale;
        if px < -I32_MAX || px > I32_MAX || py < -I32_MAX || py > I32_MAX {
          continue;
        }
        ghost var before := if t.px == null then [] else t.px[..];
        Fill(t, px, py, scale, scale, colour);
        if t.Ok() {
          PaintedTwice(t, start, before, t.px[..], GlyphPart(t, font, ch, x, y, scale, col, row), BlockOf(t, x, y, scale, col, row), colour);
        }
      }
      ColumnDone(t, font, ch, x, y, scale, col);
    }
  }

  lemma SameSet(s: Pixels)
    ensures s + {} == s
  {
  }

  lemma NoPart(t: Target, font: Font, ch: Byte, x: int, y: int, scale: nat)
    ensures GlyphPart(t, font, ch, x, y, scale, 0, 0) == {}
  {
  }

  // ---- a string --------------------------------------------------------------------------------

  /** The characters before the terminating NUL. */
  type Text = s: seq<Byte> | 0 !in s witness []

  const CHARS_MAX: nat := 0xffff

  function Advance(chars: nat, scale: nat): nat {
    if scale == 0 || chars > CHARS_MAX || scale > 0xff then 0 else chars * CELL_W * scale
  }

  /** Where character k of a string begins. */
  function Offset(k: nat, scale: nat): nat {
    k * CELL_W * scale
  }

  /** How many characters are drawn at all. */
  function DrawnChars(s: Text): nat {
    if |s| <= CHARS_MAX then |s| else CHARS_MAX + 1
  }

  /** What is drawn of the first n characters. */
  ghost function TextPart(t: Target, font: Font, x: int, y: int, s: Text, scale: nat, n: nat): Pixels
    requires n <= |s|
  {
    if n == 0 then {}
    else
      TextPart(t, font, x, y, s, scale, n - 1)
      + GlyphPart(t, font, s[n - 1], x + Offset(n - 1, scale), y, scale, GLYPH_W, 0)
  }

  predicate Draws(t: Target, s: Option<Text>, scale: nat) {
    t.Ok() && s.Some? && 0 < scale <= 0xff
  }

  /** A string, each character one cell to the right of the last, until the advance can no
      longer be told. */
  method DrawText(t: Target, font: Font, x: I32, y: I32, s: Option<Text>, scale: nat, colour: int) returns (advance: nat)
    requires t.Backed()
    modifies if t.px == null then {} else {t.px}
    ensures Draws(t, s, scale) ==>
      && Painted(t, old(t.px[..]), t.px[..], TextPart(t, font, x, y, s.value, scale, DrawnChars(s.value)), colour)
      && advance == Advance(DrawnChars(s.value), scale)
    ensures !Draws(t, s, scale) ==> advance == 0 && (t.px != null ==> t.px[..] == old(t.px[..]))
  {
    if !Draws(t, s, scale) {
      return 0;
    }
    advance := DrawChars(t, font, x, y, s.value, scale, colour);
  }

  /** The loop over the characters. */
  method DrawChars(t: Target, font: Font, x: I32, y: I32, s: Text, scale: nat, colour: int) returns (advance: nat)
    requires t.Backed() && t.Ok() && 0 < scale <= 0xff
    modifies t.px
    ensures Painted(t, old(t.px[..]), t.px[..], TextPart(t, font, x, y, s, scale, DrawnChars(s)), colour)
    ensures advance == Advance(DrawnChars(s), scale)
  {
    hide Painted, GlyphPart, Place, TextPart, Offset, Advance;
    ghost var start := t.px[..];
    NothingPainted(t, start, colour);
    NoText(t, font, x, y, s, scale);
    var n: nat := 0;
    while n < |s|
      invariant n <= |s| && n <= CHARS_MAX
      invariant Painted(t, start, t.px[..], TextPart(t, font, x, y, s, scale, n), colour)
    {
      var adv := Advance(n, scale);
      AdvanceTold(n, scale);
      if n != 0 && adv == 0 {
        break;
      }
      ghost var before := t.px[..];
      DrawGlyph(t, font, x + adv, y, s[n], scale, colour);
      TextGrows(t, font, x, y, s, scale, n);
      PaintedTwice(t, start, before, t.px[..], TextPart(t, font, x, y, s, scale, n),
                   GlyphPart(t, font, s[n], x + adv, y, scale, GLYPH_W, 0), colour);
      n := n + 1;
      if n > CHARS_MAX {
        break;
      }
    }
    advance := Advance(n, scale);
  }

  lemma NoText(t: Target, font: Font, x: int, y: int, s: Text, scale: nat)
    ensures TextPart(t, font, x, y, s, scale, 0) == {}
  {
  }

  lemma TextGrows(t: Target, font: Font, x: int, y: int, s: Text, scale: nat, n: nat)
    requires n < |s|
    ensures TextPart(t, font, x, y, s, scale, n + 1) ==
      TextPart(t, font, x, y, s, scale, n) + GlyphPart(t, font, s[n], x + Offset(n, scale), y, scale, GLYPH_W, 0)
  {
    hide GlyphPart, Offset;
  }

  /** The advance is told for every character that is drawn. */
  lemma AdvanceTold(n: nat, scale: nat)
    requires n <= CHARS_MAX && 0 < scale <= 0xff
    ensures Advance(n, scale) == Offset(n, scale) && (n != 0 ==> Advance(n, scale) != 0)
  {
    if n > 0 {
      Positive(n * CELL_W, scale);
    }
  }

  lemma Positive(a: nat, b: nat)
    requires a > 0 && b > 0
    ensures a * b > 0
  {
  }

  // ---- the ideal drawing -------------------------------------------------------------------------

  /** Pixel (i, j) lies in the scaled block of a set font pixel of the string. */
  ghost predicate InText(font: Font, x: int, y: int, s: Text, scale: nat, i: int, j: int) {
    exists k: nat :: k < |s| && InGlyph(font, s[k], x + Offset(k, scale), y, scale, i, j)
  }

  /** A block that 32 bits cannot name shows on no target. */
  lemma UnseenBlock(t: Target, x: int, y: int, scale: nat, col: nat, row: nat, i: int, j: int)
    requires t.w <= I32_MAX && t.h <= I32_MAX && scale <= 0xff && !Nameable(x, y, scale, col, row)
    requires 0 <= i < t.w && 0 <= j < t.h
    ensures !(InSpan(x + col * scale, scale, i) && InSpan(y + row * scale, scale, j))
  {
  }

  /** So the drawing of a character is the ideal one, on the target. */
  lemma GlyphIdeal(t: Target, font: Font, ch: Byte, x: int, y: int, scale: nat)
    requires t.w <= I32_MAX && t.h <= I32_MAX && scale <= 0xff
    ensures forall p: (int, int) :: p in GlyphPart(t, font, ch, x, y, scale, GLYPH_W, 0) <==>
      OnTarget(t, p) && InGlyph(font, ch, x, y, scale, p.0, p.1)
  {
    hide Ink, Nameable;
    forall p: (int, int)
      ensures p in GlyphPart(t, font, ch, x, y, scale, GLYPH_W, 0) <==> OnTarget(t, p) && InGlyph(font, ch, x, y, scale, p.0, p.1)
    {
      if OnTarget(t, p) && InGlyph(font, ch, x, y, scale, p.0, p.1) {
        var col: nat, row: nat :| col < GLYPH_W && Ink(font, ch, col, row)
          && InSpan(x + col * scale, scale, p.0) && InSpan(y + row * scale, scale, p.1);
        if !Nameable(x, y, scale, col, row) {
          UnseenBlock(t, x, y, scale, col, row, p.0, p.1);
        }
      }
    }
  }

  lemma {:induction false} TextPartIdeal(t: Target, font: Font, x: int, y: int, s: Text, scale: nat, n: nat, p: (int, int))
    requires t.w <= I32_MAX && t.h <= I32_MAX && scale <= 0xff && n <= |s|
    ensures p in TextPart(t, font, x, y, s, scale, n) <==>
      OnTarget(t, p) && exists k: nat :: k < n && InGlyph(font, s[k], x + Offset(k, scale), y, scale, p.0, p.1)
  {
    hide InGlyph, GlyphPart, Offset;
    if n > 0 {
      TextPartIdeal(t, font, x, y, s, scale, n - 1, p);
      GlyphIdeal(t, font, s[n - 1], x + Offset(n - 1, scale), y, scale);
    }
  }

  /** The drawing is the ideal one: on a target of at most 2^31 - 1 pixels each way and for a
      string of at most 65535 characters, a pixel is set exactly when it lies in the block
      of some set font pixel, whatever the position, and the advance is that of the whole
      string. */
  lemma DrawingIsIdeal(t: Target, font: Font, x: I32, y: I32, s: Text, scale: nat)
    requires t.w <= I32_MAX && t.h <= I32_MAX && 0 < scale <= 0xff && |s| <= CHARS_MAX
    ensures forall p: (int, int) :: p in TextPart(t, font, x, y, s, scale, DrawnChars(s)) <==>
      OnTarget(t, p) && InText(font, x, y, s, scale, p.0, p.1)
    ensures Advance(DrawnChars(s), scale) == CELL_W * scale * |s|
  {
    hide InGlyph, TextPart, Offset;
    forall p: (int, int)
      ensures p in TextPart(t, font, x, y, s, scale, DrawnChars(s)) <==> OnTarget(t, p) && InText(font, x, y, s, scale, p.0, p.1)
    {
      TextPartIdeal(t, font, x, y, s, scale, |s|, p);
    }
    AdvanceTold(|s|, scale);
    Rearranged(|s|, scale);
  }

  lemma Rearranged(n: nat, scale: nat)
    ensures Offset(n, scale) == CELL_W * scale * n
  {
  }

  /** The advance of a longer string is not told. */
  lemma LongTextAdvance(s: Text, scale: nat)
    requires |s| > CHARS_MAX
    ensures Advance(DrawnChars(s), scale) == 0
  {
  }
}
