/** A bitmap copied into a frame buffer turned by 90 degrees: gathered down each source
    column, staged, and stored as one run along a row of the frame buffer. */
module GfxRot {

  type Pixel = int

  const RUN_PIXELS: nat := 64

  /** Where landscape pixel (sx, sy) of a bitmap at (x0, y0) lies in the frame buffer. */
  function Cell(stride: nat, rows: nat, x0: nat, y0: nat, sx: nat, sy: nat): int {
    (rows - 1 - (x0 + sx)) * stride + (y0 + sy)
  }

  function SourceAt(srcStride: nat, sx: nat, sy: nat): nat {
    sy * srcStride + sx
  }

  /** Cell i shows one of the first n columns of the bitmap. */
  ghost predicate Covered(stride: nat, rows: nat, x0: nat, y0: nat, n: nat, h: nat, i: int) {
    exists sx: nat, sy: nat :: sx < n && sy < h && Cell(stride, rows, x0, y0, sx, sy) == i
  }

  /** The bitmap lies inside the surface, and the surface inside the frame buffer. */
  predicate Inside(len: nat, stride: nat, rows: nat, x0: nat, y0: nat, w: nat, h: nat) {
    x0 + w <= rows && y0 + h <= stride && rows * stride <= len
  }

  lemma RowAbove(stride: nat, r: nat, q: nat)
    requires r < q
    ensures r * stride + stride <= q * stride
    decreases q - r
  {
    if r + 1 < q {
      RowAbove(stride, r + 1, q);
    }
  }

  /** Rows of the frame buffer are apart, so no two pixels share a cell. */
  lemma CellsDiffer(stride: nat, rows: nat, x0: nat, y0: nat, h: nat, sx: nat, sy: nat, a: nat, b: nat)
    requires x0 + sx < rows && x0 + a < rows && sy < h && b < h && y0 + h <= stride
    ensures Cell(stride, rows, x0, y0, sx, sy) == Cell(stride, rows, x0, y0, a, b) <==> sx == a && sy == b
  {
    if sx < a {
      RowAbove(stride, rows - 1 - (x0 + a), rows - 1 - (x0 + sx));
    } else if a < sx {
      RowAbove(stride, rows - 1 - (x0 + sx), rows - 1 - (x0 + a));
    }
  }

  lemma RowAndColumn(row: nat, stride: nat, col: nat)
    requires col < stride
    ensures (row * stride + col) / stride == row && (row * stride + col) % stride == col
  {
    var i := row * stride + col;
    var q := i / stride;
    assert i == q * stride + i % stride;
    if q < row {
      RowAbove(stride, q, row);
    } else if row < q {
      RowAbove(stride, row, q);
    }
  }

  /** A quarter turn: column sx of the picture is row rows - 1 - (x0 + sx) of the frame
      buffer, and row sy of the picture its column y0 + sy. */
  lemma Turned(stride: nat, rows: nat, x0: nat, y0: nat, srcStride: nat, sx: nat, sy: nat)
    requires x0 + sx < rows && y0 + sy < stride && sx < srcStride
    ensures Cell(stride, rows, x0, y0, sx, sy) / stride == rows - 1 - (x0 + sx) && Cell(stride, rows, x0, y0, sx, sy) % stride == y0 + sy
    ensures SourceAt(srcStride, sx, sy) / srcStride == sy && SourceAt(srcStride, sx, sy) % srcStride == sx
  {
    RowAndColumn(rows - 1 - (x0 + sx), stride, y0 + sy);
    RowAndColumn(sy, srcStride, sx);
  }

  lemma CellInside(len: nat, stride: nat, rows: nat, x0: nat, y0: nat, w: nat, h: nat, sx: nat, sy: nat)
    requires Inside(len, stride, rows, x0, y0, w, h) && sx < w && sy < h
    ensures 0 <= Cell(stride, rows, x0, y0, sx, sy) < len
    ensures Cell(stride, rows, x0, y0, sx, sy) == Cell(stride, rows, x0, y0, sx, 0) + sy
  {
    RowAbove(stride, rows - 1 - (x0 + sx), rows);
  }

  lemma SourceInside(len: nat, srcStride: nat, w: nat, h: nat, sx: nat, sy: nat)
    requires sx < w && sy < h && (h - 1) * srcStride + w <= len
    ensures SourceAt(srcStride, sx, sy) < len
  {
    if sy < h - 1 {
      RowAbove(srcStride, sy, h - 1);
    }
  }

  /** Reads n pixels down a source column into the staging buffer. */
  method Gather(src: array<Pixel>, srcStride: nat, sx: nat, from: nat, run: array<Pixel>, n: nat, ghost w: nat, ghost h: nat)
    requires run != src && n <= run.Length && sx < w && from + n <= h && (h - 1) * srcStride + w <= src.Length
    modifies run
    ensures forall sy :: from <= sy < from + n ==> SourceAt(srcStride, sx, sy) < src.Length && run[sy - from] == src[SourceAt(srcStride, sx, sy)]
  {
    hide SourceAt;
    var col := SourceAt(srcStride, sx, from);
    for i := 0 to n
      invariant col == SourceAt(srcStride, sx, from + i)
      invariant forall sy :: from <= sy < from + i ==> SourceAt(srcStride, sx, sy) < src.Length && run[sy - from] == src[SourceAt(srcStride, sx, sy)]
    {
      SourceInside(src.Length, srcStride, w, h, sx, from + i);
      run[i] := src[col];
      NextRow(srcStride, sx, from + i);
      col := col + srcStride;
    }
  }

  lemma NextRow(srcStride: nat, sx: nat, sy: nat)
    ensures SourceAt(srcStride, sx, sy + 1) == SourceAt(srcStride, sx, sy) + srcStride
  {
  }

  /** Stores the staged run, two pixels at a time when the address allows it. */
  method StoreRun(run: array<Pixel>, n: nat, fb: array<Pixel>, dst: nat, address: nat)
    requires run != fb && n <= run.Length && dst + n <= fb.Length
    modifies fb
    ensures forall i :: 0 <= i < n ==> fb[dst + i] == run[i]
    ensures forall i :: 0 <= i < fb.Length && !(dst <= i < dst + n) ==> fb[i] == old(fb[i])
  {
    if address % 4 == 0 {
      var pairs := n / 2;
      for i := 0 to pairs
        invariant forall j :: 0 <= j < 2 * i ==> fb[dst + j] == run[j]
        invariant forall j :: 0 <= j < fb.Length && !(dst <= j < dst + 2 * i) ==> fb[j] == old(fb[j])
      {
        fb[dst + 2 * i], fb[dst + 2 * i + 1] := run[2 * i], run[2 * i + 1];
      }
      if n % 2 != 0 {
        fb[dst + n - 1] := run[n - 1];
      }
    } else {
      for i := 0 to n
        invariant forall j :: 0 <= j < i ==> fb[dst + j] == run[j]
        invariant forall j :: 0 <= j < fb.Length && !(dst <= j < dst + i) ==> fb[j] == old(fb[j])
      {
        fb[dst + i] := run[i];
      }
    }
  }

  /** One source column, in runs of at most 64 pixels. */
  method BlitColumn(src: array<Pixel>, srcStride: nat, fb: array<Pixel>, start: nat, address: nat, sx: nat, h: nat,
                    run: array<Pixel>, ghost w: nat)
    requires src != fb && run != src && run != fb && run.Length == RUN_PIXELS
    requires sx < w && h > 0 && (h - 1) * srcStride + w <= src.Length && start + h <= fb.Length
    modifies fb, run
    ensures forall i :: 0 <= i < h ==> 0 <= SourceAt(srcStride, sx, i) < src.Length && fb[start + i] == src[SourceAt(srcStride, sx, i)]
    ensures forall i :: 0 <= i < fb.Length && !(start <= i < start + h) ==> fb[i] == old(fb[i])
  {
    var left, dst := h, start;
    while left > 0
      invariant 0 <= left <= h && dst == start + (h - left)
      invariant forall i :: 0 <= i < h - left ==> 0 <= SourceAt(srcStride, sx, i) < src.Length && fb[start + i] == src[SourceAt(srcStride, sx, i)]
      invariant forall i :: 0 <= i < fb.Length && !(start <= i < dst) ==> fb[i] == old(fb[i])
    {
      var n := if left < RUN_PIXELS then left else RUN_PIXELS;
      var done := h - left;
      ghost var before := fb[..];
      Gather(src, srcStride, sx, done, run, n, w, h);
      StoreRun(run, n, fb, dst, address + 2 * (dst - start));
      forall i | 0 <= i < done + n
        ensures 0 <= SourceAt(srcStride, sx, i) < src.Length && fb[start + i] == src[SourceAt(srcStride, sx, i)]
      {
        if i < done {
          assert fb[start + i] == before[start + i];
        } else {
          assert fb[dst + (i - done)] == run[i - done] == src[SourceAt(srcStride, sx, i)];
        }
      }
      dst, left := dst + n, left - n;
    }
  }

  /** Frame buffer and bitmap may be absent, and the bitmap empty; then nothing happens. */
  predicate Draws(src: array?<Pixel>, fb: array?<Pixel>, w: nat, h: nat) {
    src != null && fb != null && w > 0 && h > 0
  }

  lemma CoveredMore(stride: nat, rows: nat, x0: nat, y0: nat, n: nat, h: nat, i: int)
    ensures Covered(stride, rows, x0, y0, n + 1, h, i) <==>
      Covered(stride, rows, x0, y0, n, h, i) || exists sy: nat :: sy < h && Cell(stride, rows, x0, y0, n, sy) == i
  {
  }

  /** The cells of one column are those of one run. */
  lemma ColumnIsRun(len: nat, stride: nat, rows: nat, x0: nat, y0: nat, w: nat, h: nat, sx: nat, i: int)
    requires Inside(len, stride, rows, x0, y0, w, h) && sx < w
    ensures (exists sy: nat :: sy < h && Cell(stride, rows, x0, y0, sx, sy) == i)
       <==> Cell(stride, rows, x0, y0, sx, 0) <= i < Cell(stride, rows, x0, y0, sx, 0) + h
  {
    var start := Cell(stride, rows, x0, y0, sx, 0);
    if start <= i < start + h {
      var sy: nat := i - start;
      CellInside(len, stride, rows, x0, y0, w, h, sx, sy);
    }
  }

  /** The blit: every pixel of the bitmap is where the rotation puts it, and every other
      cell is as it was, whatever the alignment of the frame buffer. */
  method BlitRot(src: array?<Pixel>, srcStride: nat, fb: array?<Pixel>, fbAddress: nat, stride: nat, rows: nat,
                 x0: nat, y0: nat, w: nat, h: nat)
    requires Draws(src, fb, w, h) ==>
      src != fb && Inside(fb.Length, stride, rows, x0, y0, w, h) && (h - 1) * srcStride + w <= src.Length
    modifies if fb == null then {} else {fb}
    ensures Draws(src, fb, w, h) ==> forall sx: nat, sy: nat :: sx < w && sy < h ==>
      && 0 <= Cell(stride, rows, x0, y0, sx, sy) < fb.Length && SourceAt(srcStride, sx, sy) < src.Length
      && fb[Cell(stride, rows, x0, y0, sx, sy)] == src[SourceAt(srcStride, sx, sy)]
    ensures fb != null ==> forall i :: 0 <= i < fb.Length && !(Draws(src, fb, w, h) && Covered(stride, rows, x0, y0, w, h, i)) ==>
      fb[i] == old(fb[i])
  {
    if !Draws(src, fb, w, h) {
      return;
    }
    hide Covered, Cell, SourceAt;
    var run := new Pixel[RUN_PIXELS];
    NoColumns(stride, rows, x0, y0, h);
    for sx := 0 to w
      invariant forall a: nat, b: nat :: a < sx && b < h ==>
        && 0 <= Cell(stride, rows, x0, y0, a, b) < fb.Length && SourceAt(srcStride, a, b) < src.Length
        && fb[Cell(stride, rows, x0, y0, a, b)] == src[SourceAt(srcStride, a, b)]
      invariant forall i :: 0 <= i < fb.Length && !Covered(stride, rows, x0, y0, sx, h, i) ==> fb[i] == old(fb[i])
    {
      ghost var before := fb[..];
      CellInside(fb.Length, stride, rows, x0, y0, w, h, sx, 0);
      CellInside(fb.Length, stride, rows, x0, y0, w, h, sx, h - 1);
      var start := Cell(stride, rows, x0, y0, sx, 0);
      BlitColumn(src, srcStride, fb, start, fbAddress + 2 * start, sx, h, run, w);
      forall a: nat, b: nat | a < sx + 1 && b < h
        ensures 0 <= Cell(stride, rows, x0, y0, a, b) < fb.Length && SourceAt(srcStride, a, b) < src.Length
        ensures fb[Cell(stride, rows, x0, y0, a, b)] == src[SourceAt(srcStride, a, b)]
      {
        CellInside(fb.Length, stride, rows, x0, y0, w, h, a, b);
        if a < sx {
          Apart(fb.Length, stride, rows, x0, y0, w, h, sx, a, b);
          assert fb[Cell(stride, rows, x0, y0, a, b)] == before[Cell(stride, rows, x0, y0, a, b)];
        } else {
          assert fb[start + b] == src[SourceAt(srcStride, sx, b)];
        }
      }
      forall i | 0 <= i < fb.Length && !Covered(stride, rows, x0, y0, sx + 1, h, i)
        ensures fb[i] == old(fb[i])
      {
        CoveredMore(stride, rows, x0, y0, sx, h, i);
        ColumnIsRun(fb.Length, stride, rows, x0, y0, w, h, sx, i);
        assert fb[i] == before[i];
      }
    }
  }

  lemma NoColumns(stride: nat, rows: nat, x0: nat, y0: nat, h: nat)
    ensures forall i :: !Covered(stride, rows, x0, y0, 0, h, i)
  {
  }

  /** Pixels of other columns are outside the run. */
  lemma Apart(len: nat, stride: nat, rows: nat, x0: nat, y0: nat, w: nat, h: nat, sx: nat, a: nat, b: nat)
    requires Inside(len, stride, rows, x0, y0, w, h) && sx < w && a < w && b < h && a != sx
    ensures var start := Cell(stride, rows, x0, y0, sx, 0); !(start <= Cell(stride, rows, x0, y0, a, b) < start + h)
  {
    hide Cell;
    var start, i := Cell(stride, rows, x0, y0, sx, 0), Cell(stride, rows, x0, y0, a, b);
    if start <= i < start + h {
      var sy: nat := i - start;
      CellInside(len, stride, rows, x0, y0, w, h, sx, sy);
      CellsDiffer(stride, rows, x0, y0, h, sx, sy, a, b);
    }
  }
}
