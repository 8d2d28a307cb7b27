/** The drawing of a string told pixel by pixel: which bit of which byte of the font shows
    where. */
module PluginPixels {
  import opened Thumb
  import opened PluginText

  /** Column byte col of a character. */
  function ColumnByte(font: Font, ch: Byte, col: nat): Byte
    requires col < 5
  {
    if 0x20 <= ch <= 0x7e then font[(ch - 0x20) * 5 + col] else [0x7f, 0x41, 0x41, 0x41, 0x7f][col]
  }

  /** Bit row of it, bit 0 for the top row. */
  predicate BitSet(b: Byte, row: nat)
    requires row < 7
  {
    b / [1, 2, 4, 8, 16, 32, 64][row] % 2 == 1
  }

  lemma Powers()
    ensures PowOf(0) == 1 && PowOf(1) == 2 && PowOf(2) == 4 && PowOf(3) == 8 && PowOf(4) == 16 && PowOf(5) == 32
      && PowOf(6) == 64
  {
    assert PowOf(2) == 2 * PowOf(1);
    assert PowOf(4) == 2 * PowOf(3);
    assert PowOf(6) == 2 * PowOf(5);
  }

  lemma InkIs(font: Font, ch: Byte, col: nat, row: nat)
    requires col < 5
    ensures Ink(font, ch, col, row) <==> row < 7 && BitSet(ColumnByte(font, ch, col), row)
  {
    Powers();
    hide PowOf;
    assert Glyph(font, ch)[col] == ColumnByte(font, ch, col);
  }

  /** v lies in the n-th of the blocks of the given size that begin at 0. */
  lemma BlockOfPixel(n: nat, size: nat, v: int)
    requires size > 0
    ensures InSpan(n * size, size, v) <==> v >= 0 && v / size == n
  {
    if v >= 0 {
      var q := v / size;
      assert v == q * size + v % size;
      if q < n {
        RowBelow(size, q, n);
      } else if n < q {
        RowBelow(size, n, q);
      }
    } else {
      NotNegative(n, size);
    }
  }

  /** Of all blocks at most one holds a pixel: its column, and row, in the scaled drawing. */
  lemma CharPixel(font: Font, ch: Byte, x: int, y: int, k: nat, scale: nat, i: int, j: int)
    requires scale > 0
    ensures InGlyph(font, ch, x + Offset(k, scale), y, scale, i, j) <==>
      i >= x && j >= y && (i - x) / scale / 6 == k && (i - x) / scale % 6 < 5
      && (j - y) / scale < 7 && BitSet(ColumnByte(font, ch, (i - x) / scale % 6), (j - y) / scale)
  {
    hide Ink, BitSet, ColumnByte, InSpan;
    forall col: nat, row: nat | col < 5
      ensures Ink(font, ch, col, row) <==> row < 7 && BitSet(ColumnByte(font, ch, col), row)
      ensures InSpan(x + Offset(k, scale) + col * scale, scale, i) <==> i >= x && (i - x) / scale == 6 * k + col
      ensures InSpan(y + row * scale, scale, j) <==> j >= y && (j - y) / scale == row
    {
      InkIs(font, ch, col, row);
      CellPlace(k, col, scale);
      BlockOfPixel(6 * k + col, scale, i - x);
      BlockOfPixel(row, scale, j - y);
      Moved(x, Offset(k, scale) + col * scale, scale, i);
      Moved(y, row * scale, scale, j);
    }
    hide Offset;
    if i >= x && j >= y {
      var q, r := (i - x) / scale, (j - y) / scale;
      Quotient(i - x, scale);
      Quotient(j - y, scale);
      if q / 6 == k && q % 6 < 5 && r < 7 && BitSet(ColumnByte(font, ch, q % 6), r) {
        assert q == 6 * k + q % 6;
        var col: nat, row: nat := q % 6, r;
        assert col < GLYPH_W && Ink(font, ch, col, row);
      }
    }
  }

  lemma Quotient(v: nat, size: nat)
    requires size > 0
    ensures v / size >= 0
  {
  }

  lemma CellPlace(k: nat, col: nat, scale: nat)
    ensures Offset(k, scale) + col * scale == (6 * k + col) * scale
  {
  }

  lemma Moved(x: int, d: int, n: int, i: int)
    ensures InSpan(x + d, n, i) <==> InSpan(d, n, i - x)
  {
  }

  /** The font's pixel that a distance falls on. */
  function Scaled(d: nat, scale: nat): (q: nat)
    requires scale > 0
  {
    Quotient(d, scale);
    d / scale
  }

  /** The bit for the pixel dx to the right of a string's corner and dy below it. */
  predicate BitAt(font: Font, s: Text, scale: nat, dx: nat, dy: nat)
    requires scale > 0
  {
    var q, r := Scaled(dx, scale), Scaled(dy, scale);
    q / 6 < |s| && q % 6 < 5 && r < 7 && BitSet(ColumnByte(font, s[q / 6], q % 6), r)
  }

  /** Every target with pixels, none of its sizes 0 and its rows no longer than their stride
      is drawn on; and a pixel of it is set if and only if the bit for its place in the
      scaled cell of its character is. */
  lemma PixelExact(t: Target, font: Font, x: I32, y: I32, s: Text, scale: nat, i: int, j: int)
    requires t.px != null && 0 < t.w <= t.stride && 0 < t.h && t.w <= I32_MAX && t.h <= I32_MAX
    requires 0 < scale <= 255 && |s| <= 0xffff
    ensures Draws(t, Some(s), scale)
    ensures (i, j) in TextPart(t, font, x, y, s, scale, DrawnChars(s)) <==>
      0 <= i < t.w && 0 <= j < t.h && i >= x && j >= y && BitAt(font, s, scale, i - x, j - y)
  {
    hide TextPart, InGlyph, BitSet, ColumnByte, Offset;
    DrawingIsIdeal(t, font, x, y, s, scale);
    forall k: nat | k < |s|
      ensures InGlyph(font, s[k], x + Offset(k, scale), y, scale, i, j) <==>
        i >= x && j >= y && BitAt(font, s, scale, i - x, j - y) && Scaled(i - x, scale) / 6 == k
    {
      CharPixel(font, s[k], x, y, k, scale, i, j);
    }
    hide BitAt;
    assert (i, j) in TextPart(t, font, x, y, s, scale, DrawnChars(s)) <==>
      OnTarget(t, (i, j)) && InText(font, x, y, s, scale, i, j);
    if i >= x && j >= y && BitAt(font, s, scale, i - x, j - y) {
      BitOfSome(font, s, scale, i - x, j - y);
      assert InGlyph(font, s[Scaled(i - x, scale) / 6], x + Offset(Scaled(i - x, scale) / 6, scale), y, scale, i, j);
    }
  }

  lemma BitOfSome(font: Font, s: Text, scale: nat, dx: nat, dy: nat)
    requires scale > 0 && BitAt(font, s, scale, dx, dy)
    ensures Scaled(dx, scale) / 6 < |s|
  {
    hide Scaled, BitSet, ColumnByte;
  }
}
