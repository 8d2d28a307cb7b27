/** The outline of a rectangle: what a box and a stroke become on a surface, and how many
    stores drawing them takes. */
module RectGeom {
  import opened Thumb

  type U16 = n: int | 0 <= n < 0x1_0000 witness 0

  type I32 = n: int | -0x8000_0000 <= n < 0x8000_0000 witness 0

  /** A clipped box and the stroke that will be drawn. */
  datatype Geom = Geom(x0: nat, y0: nat, w: nat, h: nat, t: nat)

  function Norm(fbW: U16, fbH: U16, x0: I32, y0: I32, x1: I32, y1: I32, stroke: U16): Option<Geom> {
    if fbW == 0 || fbH == 0 || stroke == 0 then None
    else
      var a, b := if x0 < 0 then 0 else x0, if y0 < 0 then 0 else y0;
      var c, d := if x1 > fbW then fbW else x1, if y1 > fbH then fbH else y1;
      if c <= a || d <= b then None
      else
        var t1 := if stroke > (c - a) / 2 then (c - a + 1) / 2 else stroke;
        var t2 := if t1 > (d - b) / 2 then (d - b + 1) / 2 else t1;
        Some(Geom(a, b, c - a, d - b, if t2 <= 0 then 1 else t2))
  }

  function Writes(g: Geom): nat {
    if g.w == 0 || g.h == 0 || g.t == 0 then 0
    else
      var edge := if g.t * 2 > g.h then g.h else g.t * 2;
      var total := edge * g.w + (g.h - edge) * g.t * 2;
      if total > 0xffff_ffff then 0xffff_ffff else total
  }

  function Min(a: int, b: int): int {
    if a < b then a else b
  }

  function Max(a: int, b: int): int {
    if a > b then a else b
  }

  /** Half, rounded up. */
  function Half(n: int): int {
    (n + 1) / 2
  }

  /** What a box becomes: the part of it on the surface, if there is any; and its stroke, the
      least of the one asked for and of half of each side, in whichever order they are
      compared. */
  lemma NormExact(fbW: U16, fbH: U16, x0: I32, y0: I32, x1: I32, y1: I32, stroke: U16)
    ensures var a, b, c, d := Max(x0, 0), Max(y0, 0), Min(x1, fbW), Min(y1, fbH);
      Norm(fbW, fbH, x0, y0, x1, y1, stroke) ==
        if stroke == 0 || c <= a || d <= b then None
        else Some(Geom(a, b, c - a, d - b, Min(stroke, Min(Half(c - a), Half(d - b)))))
  {
    var w, h := Min(x1, fbW) - Max(x0, 0), Min(y1, fbH) - Max(y0, 0);
    if stroke > 0 && w > 0 && h > 0 {
      ClampLeast(w, h, stroke);
    }
  }

  /** The two comparisons leave the least of the three. */
  lemma ClampLeast(w: nat, h: nat, t: nat)
    requires w > 0 && h > 0 && t > 0
    ensures var t1 := if t > w / 2 then (w + 1) / 2 else t;
      var t2 := if t1 > h / 2 then (h + 1) / 2 else t1;
      t2 > 0 && t2 == Min(t, Min(Half(w), Half(h)))
  {
  }

  /** Clamping to the height first gives the same stroke. */
  lemma ClampOrder(w: nat, h: nat, t: nat)
    requires w > 0 && h > 0 && t > 0
    ensures var wh := if t > w / 2 then (w + 1) / 2 else t;
      var hw := if t > h / 2 then (h + 1) / 2 else t;
      (if wh > h / 2 then (h + 1) / 2 else wh) == (if hw > w / 2 then (w + 1) / 2 else hw)
  {
  }

  ghost predicate IsNormed(g: Geom) {
    0 < g.w < 0x1_0000 && 0 < g.h < 0x1_0000 && 1 <= g.t <= Half(g.w) && g.t <= Half(g.h)
  }

  /** Whatever it is given, the result is a box with a stroke that fits it. */
  lemma NormFits(fbW: U16, fbH: U16, x0: I32, y0: I32, x1: I32, y1: I32, stroke: U16)
    ensures var g := Norm(fbW, fbH, x0, y0, x1, y1, stroke);
      g.Some? ==> IsNormed(g.value) && g.value.x0 + g.value.w <= fbW && g.value.y0 + g.value.h <= fbH
  {
    NormExact(fbW, fbH, x0, y0, x1, y1, stroke);
  }

  // ---- the pixels of an outline ------------------------------------------------------------

  /** Pixel (x, y) of the box is within the stroke of an edge. */
  predicate Drawn(g: Geom, x: int, y: int) {
    && 0 <= x < g.w && 0 <= y < g.h
    && (x < g.t || y < g.t || x >= g.w - g.t || y >= g.h - g.t)
  }

  /** The pixels of the first n rows. */
  ghost function Outline(g: Geom, n: nat): set<(int, int)> {
    set x, y | 0 <= x < g.w && 0 <= y < n && Drawn(g, x, y) :: (x, y)
  }

  /** Those of one row. */
  ghost function RowOf(g: Geom, y: int): set<(int, int)> {
    set x | 0 <= x < g.w && Drawn(g, x, y) :: (x, y)
  }

  ghost function Stretch(a: int, b: int, y: int): set<(int, int)> {
    set x | a <= x < b :: (x, y)
  }

  lemma {:induction false} StretchSize(a: int, b: int, y: int)
    requires a <= b
    ensures |Stretch(a, b, y)| == b - a
    decreases b - a
  {
    if a < b {
      StretchSize(a, b - 1, y);
      assert Stretch(a, b, y) == Stretch(a, b - 1, y) + {(b - 1, y)};
    } else {
      assert Stretch(a, b, y) == {};
    }
  }

  /** A row of the top or bottom band is full; any other has the two side bands, which meet
      in one column when the box is one less than two strokes wide. */
  function RowCount(g: Geom, y: nat): nat {
    if y < g.t || y + g.t >= g.h then g.w else if 2 * g.t >= g.w then g.w else 2 * g.t
  }

  lemma RowFull(g: Geom, y: nat)
    requires y < g.h && (y < g.t || y + g.t >= g.h || 2 * g.t >= g.w)
    ensures RowOf(g, y) == Stretch(0, g.w, y)
  {
    forall p: (int, int)
      ensures p in RowOf(g, y) <==> p in Stretch(0, g.w, y)
    {
    }
  }

  lemma RowSides(g: Geom, y: nat)
    requires g.t <= y < g.h - g.t && 2 * g.t < g.w
    ensures RowOf(g, y) == Stretch(0, g.t, y) + Stretch(g.w - g.t, g.w, y)
    ensures Stretch(0, g.t, y) !! Stretch(g.w - g.t, g.w, y)
  {
    forall p: (int, int)
      ensures p in RowOf(g, y) <==> p in Stretch(0, g.t, y) || p in Stretch(g.w - g.t, g.w, y)
    {
    }
  }

  lemma RowSize(g: Geom, y: nat)
    requires y < g.h
    ensures |RowOf(g, y)| == RowCount(g, y)
  {
    hide RowOf, Stretch;
    if y < g.t || y + g.t >= g.h || 2 * g.t >= g.w {
      RowFull(g, y);
      StretchSize(0, g.w, y);
    } else {
      RowSides(g, y);
      StretchSize(0, g.t, y);
      StretchSize(g.w - g.t, g.w, y);
    }
  }

  function SumRows(g: Geom, n: nat): nat {
    if n == 0 then 0 else SumRows(g, n - 1) + RowCount(g, n - 1)
  }

  lemma {:induction false} OutlineSize(g: Geom, n: nat)
    requires n <= g.h
    ensures |Outline(g, n)| == SumRows(g, n)
  {
    if n == 0 {
      assert Outline(g, 0) == {};
    } else {
      OutlineSize(g, n - 1);
      RowSize(g, n - 1);
      assert Outline(g, n) == Outline(g, n - 1) + RowOf(g, n - 1);
      assert Outline(g, n - 1) !! RowOf(g, n - 1);
    }
  }

  function Times(a: int, b: int): int {
    a * b
  }

  lemma TimesNext(a: int, b: int)
    ensures Times(a + 1, b) == Times(a, b) + b
  {
  }

  /** How many of the first n rows lie between the bands. */
  function Middle(g: Geom, n: nat): nat {
    Max(0, Min(n, g.h - g.t) - g.t)
  }

  lemma MiddleNext(g: Geom, n: nat)
    requires IsNormed(g) && n < g.h
    ensures if n < g.t || n + g.t >= g.h then Middle(g, n + 1) == Middle(g, n) && RowCount(g, n) == g.w
            else Middle(g, n + 1) == Middle(g, n) + 1 && RowCount(g, n) == Min(2 * g.t, g.w)
  {
  }

  /** The rows up to n, by kind. */
  lemma {:induction false} SumIs(g: Geom, n: nat)
    requires IsNormed(g) && n <= g.h
    ensures SumRows(g, n) == Times(n - Middle(g, n), g.w) + Times(Middle(g, n), Min(2 * g.t, g.w))
  {
    hide Times, Middle, RowCount, IsNormed, Min;
    if n == 0 {
      MiddleNone(g);
    } else {
      SumIs(g, n - 1);
      MiddleNext(g, n - 1);
      var m := Middle(g, n - 1);
      TimesNext(n - 1 - m, g.w);
      TimesNext(m, Min(2 * g.t, g.w));
    }
  }

  lemma MiddleNone(g: Geom)
    ensures Middle(g, 0) == 0 && Times(0, g.w) == 0 && Times(0, Min(2 * g.t, g.w)) == 0
  {
  }

  /** The total before it is cut to 32 bits. */
  lemma WritesTotal(g: Geom)
    requires IsNormed(g)
    ensures Writes(g) == Times(Min(2 * g.t, g.h), g.w) + Times(Max(0, g.h - 2 * g.t), 2 * g.t)
  {
    NeverSaturates(g);
    var edge := if g.t * 2 > g.h then g.h else g.t * 2;
    TimesTwice(g.h - edge, g.t);
  }

  lemma TimesTwice(a: int, t: int)
    ensures a * t * 2 == Times(a, 2 * t)
  {
  }

  /** The number of stores is the number of pixels of the outline, and one more for every
      row between the bands exactly when the box is one less than two strokes wide, where
      the side bands share a column. */
  lemma WritesExact(g: Geom)
    requires IsNormed(g)
    ensures Writes(g) == |Outline(g, g.h)| + (if 2 * g.t == g.w + 1 then Max(0, g.h - 2 * g.t) else 0)
  {
    hide Outline, SumRows, Writes, Times;
    OutlineSize(g, g.h);
    SumIs(g, g.h);
    WritesTotal(g);
    var middle := Middle(g, g.h);
    assert middle == Max(0, g.h - 2 * g.t) && g.h - middle == Min(2 * g.t, g.h);
    if 2 * g.t == g.w + 1 {
      TimesMore(middle, g.w);
    } else {
      assert Min(2 * g.t, g.w) == 2 * g.t;
    }
  }

  lemma TimesMore(a: int, b: int)
    ensures Times(a, b + 1) == Times(a, b) + a
  {
  }

  /** The total always fits 32 bits: the saturation is never needed. */
  lemma NeverSaturates(g: Geom)
    requires IsNormed(g)
    ensures var edge := if g.t * 2 > g.h then g.h else g.t * 2;
      edge * g.w + (g.h - edge) * g.t * 2 <= 0xffff * 0x1_0000
  {
    var edge := if g.t * 2 > g.h then g.h else g.t * 2;
    Product(g.h - edge, g.t * 2, g.w + 1);
    Product(g.h, g.w + 1, 0x1_0000);
    Distribute(edge, g.h - edge, g.w);
  }

  lemma Product(a: nat, b: nat, c: nat)
    requires b <= c
    ensures a * b <= a * c
  {
  }

  lemma Distribute(a: nat, b: nat, w: nat)
    ensures a * w + b * (w + 1) <= (a + b) * (w + 1)
  {
  }
}
