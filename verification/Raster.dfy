/** internal/chart/chart.go (bounds, the plot rectangle) and internal/chart/png.go: polylines drawn
    pixel by pixel, and the texts between them. Coordinates are exact reals. */
module Raster {

  const WIDTH := 600
  const HEIGHT := 200
  const PAD_X := 40.0
  const PAD_Y := 20.0
  const PLOT_W := 520.0
  const PLOT_H := 160.0

  /** A sample: seconds since the epoch, and the value. */
  datatype Point = Point(t: int, v: real)

  datatype Axes = Axes(minX: real, maxX: real, minY: real, maxY: real)

  /** A place in the image, in pixels. */
  datatype Spot = Spot(x: real, y: real)

  /** What one round of the line loop sets: a pixel and the one below it that makes the line thick. */
  datatype Dot = Dot(x: int, y: int, low: int)

  datatype Ink = White | Dark | Palette(colour: nat)

  datatype Series = Series(legend: string, points: seq<Point>)

  /** The bitmap font: the pixels of a text whose baseline starts at a place. */
  type Font = (string, int, int) -> set<(int, int)>

  // ---- bounds -------------------------------------------------------------------------

  ghost predicate Bounded(a: Axes, series: seq<seq<Point>>) {
    forall i, j | 0 <= i < |series| && 0 <= j < |series[i]| :: InAxes(a, series[i][j])
  }

  predicate InAxes(a: Axes, p: Point) {
    a.minX <= p.t as real <= a.maxX && a.minY <= p.v <= a.maxY
  }

  /** Every side is the coordinate of a sample. */
  ghost predicate Touching(a: Axes, series: seq<seq<Point>>) {
    && (exists i, j | 0 <= i < |series| && 0 <= j < |series[i]| :: series[i][j].t as real == a.minX)
    && (exists i, j | 0 <= i < |series| && 0 <= j < |series[i]| :: series[i][j].t as real == a.maxX)
    && (exists i, j | 0 <= i < |series| && 0 <= j < |series[i]| :: series[i][j].v == a.minY)
    && (exists i, j | 0 <= i < |series| && 0 <= j < |series[i]| :: series[i][j].v == a.maxY)
  }

  /** A flat axis is given height 1. */
  function Widen(a: Axes): Axes {
    a.(maxX := if a.minX == a.maxX then a.minX + 1.0 else a.maxX,
       maxY := if a.minY == a.maxY then a.minY + 1.0 else a.maxY)
  }

  predicate Seen(series: seq<seq<Point>>, i: nat, j: nat, a: int, b: int) {
    0 <= a < |series| && 0 <= b < |series[a]| && (a < i || (a == i && b < j))
  }

  /** One of the samples before (i, j) has that coordinate. */
  ghost predicate HasX(x: real, series: seq<seq<Point>>, i: nat, j: nat) {
    exists k, l | Seen(series, i, j, k, l) :: series[k][l].t as real == x
  }

  ghost predicate HasY(y: real, series: seq<seq<Point>>, i: nat, j: nat) {
    exists k, l | Seen(series, i, j, k, l) :: series[k][l].v == y
  }

  /** The running bounds after the samples before (i, j), the first of which sets all four. */
  ghost predicate SoFar(first: bool, a: Axes, series: seq<seq<Point>>, i: nat, j: nat) {
    if first then a == Axes(0.0, 0.0, 0.0, 0.0) && forall k, l :: !Seen(series, i, j, k, l)
    else
      && (forall k, l | Seen(series, i, j, k, l) :: InAxes(a, series[k][l]))
      && HasX(a.minX, series, i, j) && HasX(a.maxX, series, i, j)
      && HasY(a.minY, series, i, j) && HasY(a.maxY, series, i, j)
  }

  function Grown(first: bool, a: Axes, p: Point): Axes {
    var x := p.t as real;
    if first then Axes(x, x, p.v, p.v)
    else Axes(if a.minX < x then a.minX else x, if a.maxX > x then a.maxX else x,
              if a.minY < p.v then a.minY else p.v, if a.maxY > p.v then a.maxY else p.v)
  }

  method Bounds(series: seq<seq<Point>>) returns (a: Axes)
    ensures a.minX < a.maxX && a.minY < a.maxY && Bounded(a, series)
    ensures if forall i | 0 <= i < |series| :: series[i] == [] then a == Axes(0.0, 1.0, 0.0, 1.0)
            else exists b :: Touching(b, series) && Bounded(b, series) && a == Widen(b)
  {
    hide SoFar, Bounded, Touching;
    var first := true;
    var minX, maxX, minY, maxY := 0.0, 0.0, 0.0, 0.0;
    NothingSeen(series);
    for i := 0 to |series|
      invariant SoFar(first, Axes(minX, maxX, minY, maxY), series, i, 0)
    {
      for j := 0 to |series[i]|
        invariant SoFar(first, Axes(minX, maxX, minY, maxY), series, i, j)
      {
        var p := series[i][j];
        var x := p.t as real;
        OneMore(first, Axes(minX, maxX, minY, maxY), series, i, j);
        if first {
          minX, maxX, minY, maxY := x, x, p.v, p.v;
          first := false;
        } else {
          minX, maxX := if minX < x then minX else x, if maxX > x then maxX else x;
          minY, maxY := if minY < p.v then minY else p.v, if maxY > p.v then maxY else p.v;
        }
      }
      NextSeries(first, Axes(minX, maxX, minY, maxY), series, i);
    }
    AllSeen(first, Axes(minX, maxX, minY, maxY), series);
    ghost var raw := Axes(minX, maxX, minY, maxY);
    if minY == maxY {
      maxY := minY + 1.0;
    }
    if minX == maxX {
      maxX := minX + 1.0;
    }
    a := Axes(minX, maxX, minY, maxY);
    assert a == Widen(raw);
  }

  lemma NothingSeen(series: seq<seq<Point>>)
    ensures SoFar(true, Axes(0.0, 0.0, 0.0, 0.0), series, 0, 0)
  {
  }

  lemma HasMore(series: seq<seq<Point>>, i: nat, j: nat)
    requires i < |series| && j < |series[i]|
    ensures forall x :: HasX(x, series, i, j) ==> HasX(x, series, i, j + 1)
    ensures forall y :: HasY(y, series, i, j) ==> HasY(y, series, i, j + 1)
    ensures HasX(series[i][j].t as real, series, i, j + 1) && HasY(series[i][j].v, series, i, j + 1)
    ensures forall k, l :: Seen(series, i, j + 1, k, l) <==> Seen(series, i, j, k, l) || (k == i && l == j)
  {
    assert Seen(series, i, j + 1, i, j);
    assert forall k, l | Seen(series, i, j, k, l) :: Seen(series, i, j + 1, k, l);
  }

  lemma OneMore(first: bool, a: Axes, series: seq<seq<Point>>, i: nat, j: nat)
    requires i < |series| && j < |series[i]| && SoFar(first, a, series, i, j)
    ensures SoFar(false, Grown(first, a, series[i][j]), series, i, j + 1)
  {
    hide HasX, HasY;
    HasMore(series, i, j);
    var b := Grown(first, a, series[i][j]);
    forall k, l | Seen(series, i, j + 1, k, l)
      ensures InAxes(b, series[k][l])
    {
      if k != i || l != j {
        assert Seen(series, i, j, k, l);
      }
    }
  }

  lemma SameSeen(series: seq<seq<Point>>, i: nat, j: nat, m: nat, n: nat)
    requires forall k, l :: Seen(series, i, j, k, l) <==> Seen(series, m, n, k, l)
    ensures forall x :: HasX(x, series, i, j) ==> HasX(x, series, m, n)
    ensures forall y :: HasY(y, series, i, j) ==> HasY(y, series, m, n)
  {
  }

  lemma NextSeries(first: bool, a: Axes, series: seq<seq<Point>>, i: nat)
    requires i < |series| && SoFar(first, a, series, i, |series[i]|)
    ensures SoFar(first, a, series, i + 1, 0)
  {
    hide HasX, HasY;
    assert forall k, l :: Seen(series, i, |series[i]|, k, l) <==> Seen(series, i + 1, 0, k, l);
    SameSeen(series, i, |series[i]|, i + 1, 0);
  }

  lemma AllSeen(first: bool, a: Axes, series: seq<seq<Point>>)
    requires SoFar(first, a, series, |series|, 0)
    ensures a.minX <= a.maxX && a.minY <= a.maxY && Bounded(Widen(a), series)
    ensures first <==> forall i | 0 <= i < |series| :: series[i] == []
    ensures if first then a == Axes(0.0, 0.0, 0.0, 0.0) else Bounded(a, series) && Touching(a, series)
  {
    assert forall k, l | 0 <= k < |series| && 0 <= l < |series[k]| :: Seen(series, |series|, 0, k, l);
    if !first {
      var k, l :| Seen(series, |series|, 0, k, l) && series[k][l].t as real == a.minX;
      assert InAxes(a, series[k][l]) && series[k] != [];
    } else {
      forall k | 0 <= k < |series|
        ensures series[k] == []
      {
        assert !Seen(series, |series|, 0, k, 0);
      }
    }
  }

  // ---- where a sample is drawn ---------------------------------------------------------------

  function Project(a: Axes, p: Point): Spot
    requires a.minX < a.maxX && a.minY < a.maxY
  {
    Spot(PAD_X + Fraction(p.t as real, a.minX, a.maxX) * PLOT_W,
         PAD_Y + (1.0 - Fraction(p.v, a.minY, a.maxY)) * PLOT_H)
  }

  predicate InPlot(s: Spot) {
    PAD_X <= s.x <= PAD_X + PLOT_W && PAD_Y <= s.y <= PAD_Y + PLOT_H
  }

  function Fraction(v: real, lo: real, hi: real): real
    requires lo < hi
  {
    (v - lo) / (hi - lo)
  }

  lemma FractionInside(v: real, lo: real, hi: real)
    requires lo < hi && lo <= v <= hi
    ensures 0.0 <= Fraction(v, lo, hi) <= 1.0
  {
    var q, d := Fraction(v, lo, hi), hi - lo;
    assert q * d == v - lo;
    assert q < 0.0 ==> q * d < 0.0;
    assert q > 1.0 ==> (q - 1.0) * d > 0.0;
  }

  lemma ProjectInside(a: Axes, p: Point)
    requires a.minX < a.maxX && a.minY < a.maxY && InAxes(a, p)
    ensures InPlot(Project(a, p))
  {
    hide Fraction;
    FractionInside(p.t as real, a.minX, a.maxX);
    FractionInside(p.v, a.minY, a.maxY);
  }

  lemma FractionScales(v: real, w: real, lo: real, hi: real)
    requires lo < hi
    ensures (Fraction(w, lo, hi) - Fraction(v, lo, hi)) * (hi - lo) == w - v
    ensures Fraction(lo, lo, hi) == 0.0 && Fraction(hi, lo, hi) == 1.0
  {
    var d := hi - lo;
    assert Fraction(w, lo, hi) * d == w - lo && Fraction(v, lo, hi) * d == v - lo;
    assert d / d == 1.0;
  }

  /** Places change in proportion to samples, to the right with time and upward with the value. */
  lemma ProjectIsProportional(a: Axes, p: Point, q: Point)
    requires a.minX < a.maxX && a.minY < a.maxY
    ensures (Project(a, q).x - Project(a, p).x) * (a.maxX - a.minX) == 520.0 * (q.t as real - p.t as real)
    ensures (Project(a, q).y - Project(a, p).y) * (a.maxY - a.minY) == -160.0 * (q.v - p.v)
  {
    hide Fraction;
    FractionScales(p.t as real, q.t as real, a.minX, a.maxX);
    FractionScales(p.v, q.v, a.minY, a.maxY);
    Scaling(Fraction(q.t as real, a.minX, a.maxX) - Fraction(p.t as real, a.minX, a.maxX), a.maxX - a.minX, 520.0);
    Scaling(Fraction(q.v, a.minY, a.maxY) - Fraction(p.v, a.minY, a.maxY), a.maxY - a.minY, -160.0);
  }

  lemma Scaling(f: real, d: real, k: real)
    ensures f * k * d == k * (f * d)
  {
  }

  /** The first time stands on the left edge, the last on the right one; the greatest value on the
      upper edge, the least on the lower one. */
  lemma ProjectCorners(a: Axes, p: Point)
    requires a.minX < a.maxX && a.minY < a.maxY
    ensures p.t as real == a.minX ==> Project(a, p).x == 40.0
    ensures p.t as real == a.maxX ==> Project(a, p).x == 560.0
    ensures p.v == a.maxY ==> Project(a, p).y == 20.0
    ensures p.v == a.minY ==> Project(a, p).y == 180.0
  {
    hide Fraction;
    FractionScales(p.t as real, p.t as real, a.minX, a.maxX);
    FractionScales(p.v, p.v, a.minY, a.maxY);
  }

  /** A later sample stands further right, and a greater value higher. */
  lemma ProjectFollows(a: Axes, p: Point, q: Point)
    requires a.minX < a.maxX && a.minY < a.maxY
    ensures p.t < q.t <==> Project(a, p).x < Project(a, q).x
    ensures p.v < q.v <==> Project(a, q).y < Project(a, p).y
  {
    hide Project;
    ProjectIsProportional(a, p, q);
    SameSign(Project(a, q).x - Project(a, p).x, a.maxX - a.minX);
    SameSign(Project(a, q).y - Project(a, p).y, a.maxY - a.minY);
  }

  lemma SameSign(x: real, d: real)
    requires d > 0.0
    ensures x > 0.0 <==> x * d > 0.0
    ensures x < 0.0 <==> x * d < 0.0
  {
    assert x > 0.0 ==> x * d > 0.0;
    assert x < 0.0 ==> x * d < 0.0;
  }

  // ---- pixels -----------------------------------------------------------------------------

  /** Conversion to an integer drops the fraction, toward zero. */
  function Trunc(x: real): int { if x >= 0.0 then x.Floor else -((-x).Floor) }

  function Pixel(x: real): int { Trunc(x + 0.5) }

  lemma PixelStep(x: real, y: real)
    requires x - 1.0 <= y <= x + 1.0
    ensures Pixel(x) - 1 <= Pixel(y) <= Pixel(x) + 1
  {
  }

  function Span(d: real, e: real): (steps: real)
    ensures -steps <= d <= steps && -steps <= e <= steps && steps >= 0.0
    ensures steps == 0.0 ==> d == 0.0 && e == 0.0
  {
    var a, b := if d < 0.0 then -d else d, if e < 0.0 then -e else e;
    if a > b then a else b
  }

  function Steps(p: Spot, q: Spot): real { Span(q.x - p.x, q.y - p.y) }

  /** The place k pixels along the longer axis of the segment from p to q. */
  function Along(p: Spot, q: Spot, k: real): Spot
    requires Steps(p, q) > 0.0
  {
    Spot(Moved(p.x, q.x, Steps(p, q), k), Moved(p.y, q.y, Steps(p, q), k))
  }

  /** One coordinate after k of the given number of equal moves. */
  function Moved(from: real, to: real, steps: real, k: real): real
    requires steps > 0.0
  {
    from + k * ((to - from) / steps)
  }

  function DotAt(s: Spot): Dot { Dot(Pixel(s.x), Pixel(s.y), Pixel(s.y + 1.0)) }

  /** The dots of one segment: one for each whole pixel of its longer axis, the start included. */
  function Segment(p: Spot, q: Spot): (dots: seq<Dot>)
    ensures |dots| == Steps(p, q).Floor + 1
  {
    if Steps(p, q) == 0.0 then [Dot(Pixel(p.x), Pixel(p.y), Pixel(p.y))]
    else seq(Steps(p, q).Floor + 1, k requires 0 <= k <= Steps(p, q).Floor => DotAt(Along(p, q, k as real)))
  }

  /** The dots of a whole line, segment after segment. */
  function Polyline(s: seq<Spot>): seq<Dot> {
    if |s| < 2 then []
    else Polyline(s[..|s| - 1]) + Segment(s[|s| - 2], s[|s| - 1])
  }

  predicate Sets(d: Dot, a: int, b: int) { d.x == a && (d.y == b || d.low == b) }

  predicate Inked(dots: seq<Dot>, a: int, b: int) {
    exists k | 0 <= k < |dots| :: Sets(dots[k], a, b)
  }

  // ---- the loops ------------------------------------------------------------------------------

  method SetPixel(img: array2<Ink>, x: real, y: real, ink: Ink)
    requires img.Length0 == WIDTH && img.Length1 == HEIGHT
    modifies img
    ensures forall a, b | 0 <= a < WIDTH && 0 <= b < HEIGHT ::
              img[a, b] == if a == Pixel(x) && b == Pixel(y) then ink else old(img[a, b])
  {
    var ix, iy := Trunc(x + 0.5), Trunc(y + 0.5);
    if 0 <= ix < WIDTH && 0 <= iy < HEIGHT {
      img[ix, iy] := ink;
    }
  }

  method DrawLine(img: array2<Ink>, p: Spot, q: Spot, ink: Ink)
    requires img.Length0 == WIDTH && img.Length1 == HEIGHT
    modifies img
    ensures forall a, b | 0 <= a < WIDTH && 0 <= b < HEIGHT ::
              img[a, b] == if Inked(Segment(p, q), a, b) then ink else old(img[a, b])
  {
    var dx, dy := q.x - p.x, q.y - p.y;
    var steps := Span(dx, dy);
    ghost var dots := Segment(p, q);
    if steps == 0.0 {
      SetPixel(img, p.x, p.y, ink);
      assert forall a, b :: Inked(dots, a, b) <==> Sets(dots[0], a, b);
      return;
    }
    var xi, yi := dx / steps, dy / steps;
    var x, y := p.x, p.y;
    var i := 0;
    while i as real <= steps
      invariant 0 <= i <= steps.Floor + 1
      invariant Spot(x, y) == Along(p, q, i as real)
      invariant forall a, b | 0 <= a < WIDTH && 0 <= b < HEIGHT ::
                  img[a, b] == if Inked(dots[..i], a, b) then ink else old(img[a, b])
      decreases steps.Floor + 1 - i
    {
      InkedMore(dots, i);
      SetPixel(img, x, y, ink);
      SetPixel(img, x, y + 1.0, ink);
      AlongStep(p, q, i);
      x := x + xi;
      y := y + yi;
      i := i + 1;
    }
    assert dots[..i] == dots;
  }

  lemma AlongStep(p: Spot, q: Spot, i: nat)
    requires Steps(p, q) > 0.0
    ensures var s := Along(p, q, i as real);
            Along(p, q, (i + 1) as real) ==
            Spot(s.x + (q.x - p.x) / Steps(p, q), s.y + (q.y - p.y) / Steps(p, q))
  {
    hide Moved, Steps;
    MovedMore(p.x, q.x, Steps(p, q), i as real);
    MovedMore(p.y, q.y, Steps(p, q), i as real);
  }

  lemma MovedMore(from: real, to: real, steps: real, k: real)
    requires steps > 0.0
    ensures Moved(from, to, steps, k + 1.0) == Moved(from, to, steps, k) + (to - from) / steps
    ensures Moved(from, to, steps, 0.0) == from
  {
    var d := (to - from) / steps;
    assert (k + 1.0) * d == k * d + d;
  }

  lemma InkedMore(dots: seq<Dot>, i: nat)
    requires i < |dots|
    ensures forall a, b :: Inked(dots[..i + 1], a, b) <==> Inked(dots[..i], a, b) || Sets(dots[i], a, b)
  {
    forall a, b
      ensures Inked(dots[..i + 1], a, b) <==> Inked(dots[..i], a, b) || Sets(dots[i], a, b)
    {
      InkedCat(dots[..i], [dots[i]], a, b);
      assert dots[..i + 1] == dots[..i] + [dots[i]];
      assert [dots[i]][0] == dots[i];
    }
  }

  lemma InkedCat(s: seq<Dot>, t: seq<Dot>, a: int, b: int)
    ensures Inked(s + t, a, b) <==> Inked(s, a, b) || Inked(t, a, b)
  {
    if k :| 0 <= k < |s| && Sets(s[k], a, b) {
      assert Sets((s + t)[k], a, b);
    }
    if k :| 0 <= k < |t| && Sets(t[k], a, b) {
      assert Sets((s + t)[|s| + k], a, b);
    }
  }

  function Spots(a: Axes, points: seq<Point>): (s: seq<Spot>)
    requires a.minX < a.maxX && a.minY < a.maxY
    ensures |s| == |points| && forall j | 0 <= j < |s| :: s[j] == Project(a, points[j])
  {
    seq(|points|, j requires 0 <= j < |points| => Project(a, points[j]))
  }

  /** The points of one series; px and py carry the place of the point before. */
  method DrawSeries(img: array2<Ink>, a: Axes, points: seq<Point>, ink: Ink)
    requires img.Length0 == WIDTH && img.Length1 == HEIGHT
    requires a.minX < a.maxX && a.minY < a.maxY
    modifies img
    ensures forall x, y | 0 <= x < WIDTH && 0 <= y < HEIGHT ::
              img[x, y] == if Inked(Polyline(Spots(a, points)), x, y) then ink else old(img[x, y])
  {
    hide Project, Segment;
    var px, py := 0.0, 0.0;
    ghost var s := Spots(a, points);
    for j := 0 to |points|
      invariant j > 0 ==> Spot(px, py) == s[j - 1]
      invariant forall x, y | 0 <= x < WIDTH && 0 <= y < HEIGHT ::
                  img[x, y] == if Inked(Polyline(s[..j]), x, y) then ink else old(img[x, y])
    {
      var here := Project(a, points[j]);
      PolylineMore(s, j);
      if j > 0 {
        DrawLine(img, Spot(px, py), here, ink);
      }
      px, py := here.x, here.y;
    }
    assert s[..|points|] == s;
  }

  lemma PolylineMore(s: seq<Spot>, j: nat)
    requires j < |s|
    ensures j == 0 ==> Polyline(s[..j + 1]) == Polyline(s[..j])
    ensures forall x, y :: j > 0 ==>
      (Inked(Polyline(s[..j + 1]), x, y) <==> Inked(Polyline(s[..j]), x, y) || Inked(Segment(s[j - 1], s[j]), x, y))
  {
    if j > 0 {
      assert s[..j + 1][..j] == s[..j];
      forall x, y {
        InkedCat(Polyline(s[..j]), Segment(s[j - 1], s[j]), x, y);
      }
    }
  }

  method DrawText(img: array2<Ink>, font: Font, x: int, y: int, text: string, ink: Ink)
    requires img.Length0 == WIDTH && img.Length1 == HEIGHT
    modifies img
    ensures forall a, b | 0 <= a < WIDTH && 0 <= b < HEIGHT ::
              img[a, b] == if (a, b) in font(text, x, y) then ink else old(img[a, b])
  {
    forall a, b | 0 <= a < WIDTH && 0 <= b < HEIGHT && (a, b) in font(text, x, y) {
      img[a, b] := ink;
    }
  }

  /** What is drawn in one go. */
  datatype Layer = Stroke(ink: Ink, dots: seq<Dot>) | Writing(ink: Ink, text: string, x: int, y: int)

  predicate Covers(l: Layer, font: Font, x: int, y: int) {
    match l
    case Stroke(_, dots) => Inked(dots, x, y)
    case Writing(_, text, a, b) => (x, y) in font(text, a, b)
  }

  /** The title, then for each series its line and its label, in the colours of the palette in turn. */
  function Layers(title: string, a: Axes, series: seq<Series>): seq<Layer>
    requires a.minX < a.maxX && a.minY < a.maxY
  {
    if series == [] then [Writing(Dark, title, 8, 14)] else
    var i := |series| - 1;
    var ink := Palette(i % 4);
    Layers(title, a, series[..i]) +
    [Stroke(ink, Polyline(Spots(a, series[i].points)))] + [Writing(ink, series[i].legend, 8, 28 + i * 14)]
  }

  /** A pixel shows the last layer that covers it. */
  ghost predicate Painted(ink: Ink, layers: seq<Layer>, font: Font, x: int, y: int) {
    if exists i | 0 <= i < |layers| :: Covers(layers[i], font, x, y) then
      exists i | 0 <= i < |layers| ::
        Covers(layers[i], font, x, y) && ink == layers[i].ink &&
        forall k | i < k < |layers| :: !Covers(layers[k], font, x, y)
    else ink == White
  }

  function PointsOf(series: seq<Series>): (all: seq<seq<Point>>)
    ensures |all| == |series| && forall i | 0 <= i < |all| :: all[i] == series[i].points
  {
    seq(|series|, i requires 0 <= i < |series| => series[i].points)
  }

  method Render(title: string, series: seq<Series>, font: Font) returns (img: array2<Ink>, ghost a: Axes)
    ensures a.minX < a.maxX && a.minY < a.maxY && Bounded(a, PointsOf(series))
    ensures img.Length0 == WIDTH && img.Length1 == HEIGHT
    ensures forall x, y | 0 <= x < WIDTH && 0 <= y < HEIGHT ::
              Painted(img[x, y], Layers(title, a, series), font, x, y)
  {
    hide Painted, Layers, Inked, Polyline, Bounded, Touching;
    img := new Ink[WIDTH, HEIGHT]((_, _) => White);
    var axes := Bounds(PointsOf(series));
    a := axes;
    DrawText(img, font, 8, 14, title, Dark);
    forall x, y | 0 <= x < WIDTH && 0 <= y < HEIGHT
      ensures Painted(img[x, y], Layers(title, a, []), font, x, y)
    {
      TitleLayer(title, a, font, x, y);
    }
    assert series[..0] == [];
    for i := 0 to |series|
      invariant forall x, y | 0 <= x < WIDTH && 0 <= y < HEIGHT ::
                  Painted(img[x, y], Layers(title, a, series[..i]), font, x, y)
    {
      var ink := Palette(i % 4);
      ghost var stroke := Stroke(ink, Polyline(Spots(a, series[i].points)));
      ghost var legend := Writing(ink, series[i].legend, 8, 28 + i * 14);
      label Before:
      DrawSeries(img, axes, series[i].points, ink);
      DrawText(img, font, 8, 28 + i * 14, series[i].legend, ink);
      LayersMore(title, a, series, i);
      forall x, y | 0 <= x < WIDTH && 0 <= y < HEIGHT
        ensures Painted(img[x, y], Layers(title, a, series[..i + 1]), font, x, y)
      {
        var layers := Layers(title, a, series[..i]);
        var was := old@Before(img[x, y]);
        LayerOnTop(was, layers, stroke, font, x, y);
        LayerOnTop(if Covers(stroke, font, x, y) then ink else was, layers + [stroke], legend, font, x, y);
      }
    }
    assert series[..|series|] == series;
  }

  lemma TitleLayer(title: string, a: Axes, font: Font, x: int, y: int)
    requires a.minX < a.maxX && a.minY < a.maxY
    ensures Painted(if (x, y) in font(title, 8, 14) then Dark else White, Layers(title, a, []), font, x, y)
  {
    var layers := Layers(title, a, []);
    assert layers[0] == Writing(Dark, title, 8, 14);
  }

  lemma LayersMore(title: string, a: Axes, series: seq<Series>, i: nat)
    requires a.minX < a.maxX && a.minY < a.maxY && i < |series|
    ensures Layers(title, a, series[..i + 1]) ==
            Layers(title, a, series[..i]) + [Stroke(Palette(i % 4), Polyline(Spots(a, series[i].points)))] +
            [Writing(Palette(i % 4), series[i].legend, 8, 28 + i * 14)]
  {
    hide Polyline, Spots;
    assert series[..i + 1][..i] == series[..i];
  }

  lemma LayerOnTop(was: Ink, layers: seq<Layer>, l: Layer, font: Font, x: int, y: int)
    requires Painted(was, layers, font, x, y)
    ensures Painted(if Covers(l, font, x, y) then l.ink else was, layers + [l], font, x, y)
  {
    hide Covers;
    var n, more := |layers|, layers + [l];
    assert more[n] == l && forall i | 0 <= i < n :: more[i] == layers[i];
    if Covers(l, font, x, y) {
      assert Covers(more[n], font, x, y);
    } else if k :| 0 <= k < n && Covers(layers[k], font, x, y) {
      assert Covers(more[k], font, x, y);
      var m :| 0 <= m < n && Covers(layers[m], font, x, y) && was == layers[m].ink &&
               forall j | m < j < n :: !Covers(layers[j], font, x, y);
      assert Covers(more[m], font, x, y) && forall j | m < j <= n :: !Covers(more[j], font, x, y);
    } else {
      assert forall i | 0 <= i <= n :: !Covers(more[i], font, x, y);
    }
  }

  // ---- the lines are unbroken and stay inside ------------------------------------------------

  /** k pixels along a segment of that many steps: on the way from its start, at most the steps left
      away from its end, and each further pixel moves at most one. */
  lemma OnTheWay(d: real, steps: real, k: real)
    requires steps > 0.0 && -steps <= d <= steps && 0.0 <= k <= steps
    ensures -1.0 <= d / steps <= 1.0
    ensures 0.0 <= k * (d / steps) <= d || d <= k * (d / steps) <= 0.0
    ensures k - steps <= d - k * (d / steps) <= steps - k
  {
    var q := d / steps;
    assert q * steps == d;
    assert (q - 1.0) * steps == d - steps && (q + 1.0) * steps == d + steps;
    assert d - k * q == q * (steps - k);
    Scaled(q, k);
    Scaled(q, steps - k);
  }

  lemma Scaled(q: real, k: real)
    requires -1.0 <= q <= 1.0 && k >= 0.0
    ensures -k <= q * k <= k
    ensures q >= 0.0 ==> q * k >= 0.0
    ensures q <= 0.0 ==> q * k <= 0.0
  {
    assert (1.0 - q) * k >= 0.0 && (1.0 + q) * k >= 0.0;
  }

  /** The same of one coordinate. */
  lemma OnAxis(from: real, to: real, steps: real, k: real)
    requires steps > 0.0 && -steps <= to - from <= steps && 0.0 <= k <= steps
    ensures var at := Moved(from, to, steps, k);
            && (from <= at <= to || to <= at <= from)
            && k - steps <= to - at <= steps - k
    ensures -1.0 <= (to - from) / steps <= 1.0
  {
    OnTheWay(to - from, steps, k);
  }

  lemma AlongInside(p: Spot, q: Spot, k: real)
    requires Steps(p, q) > 0.0 && 0.0 <= k <= Steps(p, q) && InPlot(p) && InPlot(q)
    ensures InPlot(Along(p, q, k))
  {
    hide Moved;
    OnAxis(p.x, q.x, Steps(p, q), k);
    OnAxis(p.y, q.y, Steps(p, q), k);
  }

  /** Inside the plot rectangle, its bottom edge one pixel thicker. */
  predicate DotInside(d: Dot) {
    40 <= d.x <= 560 && 20 <= d.y <= 180 && d.y <= d.low <= d.y + 1
  }

  lemma {:induction false} PolylineInside(s: seq<Spot>)
    requires forall j | 0 <= j < |s| :: InPlot(s[j])
    ensures forall k | 0 <= k < |Polyline(s)| :: DotInside(Polyline(s)[k])
  {
    if |s| >= 2 {
      PolylineInside(s[..|s| - 1]);
      SegmentInside(s[|s| - 2], s[|s| - 1]);
    }
  }

  lemma SegmentInside(p: Spot, q: Spot)
    requires InPlot(p) && InPlot(q)
    ensures forall k | 0 <= k < |Segment(p, q)| :: DotInside(Segment(p, q)[k])
  {
    if Steps(p, q) > 0.0 {
      forall k | 0 <= k < |Segment(p, q)|
        ensures DotInside(Segment(p, q)[k])
      {
        var steps := Steps(p, q);
        assert k as real <= steps.Floor as real <= steps;
        AlongInside(p, q, k as real);
      }
    }
  }

  /** No pixel of any chart is ever clipped: every coordinate stays in the plot rectangle. */
  lemma NothingIsClipped(a: Axes, series: seq<seq<Point>>, i: nat)
    requires a.minX < a.maxX && a.minY < a.maxY && Bounded(a, series) && i < |series|
    ensures var line := Polyline(Spots(a, series[i])); forall k | 0 <= k < |line| :: DotInside(line[k])
  {
    var s := Spots(a, series[i]);
    forall j | 0 <= j < |s|
      ensures InPlot(s[j])
    {
      ProjectInside(a, series[i][j]);
    }
    PolylineInside(s);
  }

  predicate Near(d: Dot, e: Dot) {
    d.x - 1 <= e.x <= d.x + 1 && d.y - 1 <= e.y <= d.y + 1
  }

  predicate Unbroken(dots: seq<Dot>) {
    forall k | 0 < k < |dots| :: Near(dots[k - 1], dots[k])
  }

  /** A segment starts on its first point, is unbroken, and ends within a pixel of its last point. */
  lemma SegmentUnbroken(p: Spot, q: Spot)
    ensures Unbroken(Segment(p, q))
    ensures Segment(p, q)[0].x == Pixel(p.x) && Segment(p, q)[0].y == Pixel(p.y)
    ensures Near(Segment(p, q)[|Segment(p, q)| - 1], DotAt(q))
  {
    hide Moved, Pixel;
    var dots, steps := Segment(p, q), Steps(p, q);
    if steps > 0.0 {
      forall k | 0 < k < |dots|
        ensures Near(dots[k - 1], dots[k])
      {
        AlongNear(p, q, k);
      }
      LastNear(p, q);
      MovedMore(p.x, q.x, steps, 0.0);
      MovedMore(p.y, q.y, steps, 0.0);
    }
  }

  lemma AlongNear(p: Spot, q: Spot, k: nat)
    requires Steps(p, q) > 0.0 && k > 0
    ensures Near(DotAt(Along(p, q, (k - 1) as real)), DotAt(Along(p, q, k as real)))
  {
    hide Moved;
    var s, t := Along(p, q, (k - 1) as real), Along(p, q, k as real);
    AlongStep(p, q, k - 1);
    OnAxis(p.x, q.x, Steps(p, q), 0.0);
    OnAxis(p.y, q.y, Steps(p, q), 0.0);
    PixelStep(s.x, t.x);
    PixelStep(s.y, t.y);
  }

  lemma LastNear(p: Spot, q: Spot)
    requires Steps(p, q) > 0.0
    ensures Near(DotAt(Along(p, q, Steps(p, q).Floor as real)), DotAt(q))
  {
    hide Moved;
    var last := Along(p, q, Steps(p, q).Floor as real);
    OnAxis(p.x, q.x, Steps(p, q), Steps(p, q).Floor as real);
    OnAxis(p.y, q.y, Steps(p, q), Steps(p, q).Floor as real);
    PixelStep(last.x, q.x);
    PixelStep(last.y, q.y);
  }

  /** A whole line is unbroken, joints included. */
  lemma {:induction false} LineIsUnbroken(s: seq<Spot>)
    ensures Unbroken(Polyline(s))
    ensures |s| >= 2 ==> |Polyline(s)| > 0 && Near(Polyline(s)[|Polyline(s)| - 1], DotAt(s[|s| - 1]))
    ensures |s| >= 2 ==> Polyline(s)[0].x == Pixel(s[0].x) && Polyline(s)[0].y == Pixel(s[0].y)
  {
    hide Segment, Pixel;
    if |s| >= 2 {
      var front := s[..|s| - 1];
      var p, q := s[|s| - 2], s[|s| - 1];
      LineIsUnbroken(front);
      SegmentUnbroken(p, q);
      assert Polyline(s) == Polyline(front) + Segment(p, q);
    }
  }

  /** So no column between two dots of a line is left empty. */
  lemma {:induction false} NoColumnIsSkipped(dots: seq<Dot>, i: nat, j: nat, x: int) returns (k: nat)
    requires Unbroken(dots) && i <= j < |dots|
    requires dots[i].x <= x <= dots[j].x || dots[j].x <= x <= dots[i].x
    ensures i <= k <= j && dots[k].x == x
    decreases j - i
  {
    if dots[i].x == x {
      k := i;
    } else {
      assert Near(dots[i], dots[i + 1]);
      k := NoColumnIsSkipped(dots, i + 1, j, x);
    }
  }

  // ---- the lines are where they should be ----------------------------------------------------

  /** The pixel's centre is within one half of the place, in each axis. */
  predicate At(d: Dot, s: Spot) {
    s.x - 0.5 <= d.x as real <= s.x + 0.5 && s.y - 0.5 <= d.y as real <= s.y + 0.5
  }

  /** Part f of the way from p to q. */
  predicate OnSegment(s: Spot, p: Spot, q: Spot, f: real) {
    0.0 <= f <= 1.0 && s.x == p.x + f * (q.x - p.x) && s.y == p.y + f * (q.y - p.y)
  }

  lemma PixelIsNear(x: real)
    requires x >= 0.0
    ensures x - 0.5 <= Pixel(x) as real <= x + 0.5 && Pixel(x + 1.0) == Pixel(x) + 1
  {
  }

  lemma MovedIsPart(from: real, to: real, steps: real, k: real)
    requires steps > 0.0
    ensures Moved(from, to, steps, k) == from + (k / steps) * (to - from)
  {
    var d := to - from;
    assert k * (d / steps) == (k / steps) * d;
  }

  lemma PartOfSteps(k: real, steps: real)
    requires steps > 0.0 && 0.0 <= k <= steps
    ensures 0.0 <= k / steps <= 1.0 && (k / steps) * steps == k
  {
    var f := k / steps;
    assert f * steps == k;
    SameSign(f, steps);
    assert (1.0 - f) * steps == steps - k;
    SameSign(1.0 - f, steps);
  }

  lemma AlongIsOnSegment(p: Spot, q: Spot, k: real) returns (f: real)
    requires Steps(p, q) > 0.0 && 0.0 <= k <= Steps(p, q)
    ensures OnSegment(Along(p, q, k), p, q, f) && f * Steps(p, q) == k
  {
    hide Moved, Steps;
    f := k / Steps(p, q);
    MovedIsPart(p.x, q.x, Steps(p, q), k);
    MovedIsPart(p.y, q.y, Steps(p, q), k);
    PartOfSteps(k, Steps(p, q));
  }

  lemma DotIsNear(s: Spot)
    requires InPlot(s)
    ensures At(DotAt(s), s) && DotAt(s).low == DotAt(s).y + 1
  {
    hide Pixel;
    PixelIsNear(s.x);
    PixelIsNear(s.y);
  }

  /** Every dot is the pixel of a place on the segment, with the pixel below it set too unless the
      segment is a single place. */
  lemma DotIsOnSegment(p: Spot, q: Spot, k: nat) returns (s: Spot, f: real)
    requires InPlot(p) && InPlot(q) && k < |Segment(p, q)|
    ensures OnSegment(s, p, q, f) && At(Segment(p, q)[k], s)
    ensures Segment(p, q)[k].low == Segment(p, q)[k].y + if p == q then 0 else 1
    ensures p != q ==> f * Steps(p, q) == k as real
  {
    hide Along, DotAt, OnSegment, At;
    var steps := Steps(p, q);
    if steps == 0.0 {
      s, f := p, 0.0;
      StartIsOnSegment(p, q);
    } else {
      assert k as real <= steps.Floor as real <= steps;
      s := Along(p, q, k as real);
      AlongInside(p, q, k as real);
      f := AlongIsOnSegment(p, q, k as real);
      DotIsNear(s);
    }
  }

  lemma StartIsOnSegment(p: Spot, q: Spot)
    requires InPlot(p)
    ensures OnSegment(p, p, q, 0.0) && At(Dot(Pixel(p.x), Pixel(p.y), Pixel(p.y)), p)
  {
    DotIsNear(p);
  }

  // ---- the layers --------------------------------------------------------------------------------

  /** The title is below everything; then each series' line is below its label, and the series lie in
      order, in the palette's four colours in turn, the labels one below the other. */
  lemma {:induction false} LayersAre(title: string, a: Axes, series: seq<Series>)
    requires a.minX < a.maxX && a.minY < a.maxY
    ensures var layers := Layers(title, a, series);
            && |layers| == 1 + 2 * |series|
            && layers[0] == Writing(Dark, title, 8, 14)
            && forall i | 0 <= i < |series| ::
                 && layers[1 + 2 * i] == Stroke(Palette(i % 4), Polyline(Spots(a, series[i].points)))
                 && layers[2 + 2 * i] == Writing(Palette(i % 4), series[i].legend, 8, 28 + 14 * i)
  {
    hide Polyline, Spots;
    if series != [] {
      LayersAre(title, a, series[..|series| - 1]);
    }
  }

  /** Every pixel of every series' line has the series' colour in the end, unless that of something
      drawn later: its label, or the line or label of a later series. */
  lemma LineIsSeen(ink: Ink, title: string, a: Axes, series: seq<Series>, font: Font, i: nat, x: int, y: int)
    requires a.minX < a.maxX && a.minY < a.maxY && i < |series|
    requires Painted(ink, Layers(title, a, series), font, x, y)
    requires Inked(Polyline(Spots(a, series[i].points)), x, y)
    ensures exists k | i <= k < |series| ::
              ink == Palette(k % 4) &&
              (Inked(Polyline(Spots(a, series[k].points)), x, y) || (x, y) in font(series[k].legend, 8, 28 + 14 * k))
  {
    hide Layers, Polyline, Spots, Inked;
    var layers := Layers(title, a, series);
    LayersAre(title, a, series);
    assert Covers(layers[1 + 2 * i], font, x, y);
    var top :| 0 <= top < |layers| && Covers(layers[top], font, x, y) && ink == layers[top].ink &&
               forall k | top < k < |layers| :: !Covers(layers[k], font, x, y);
    assert top >= 1 + 2 * i;
    var k := (top - 1) / 2;
    assert i <= k < |series| && (top == 1 + 2 * k || top == 2 + 2 * k);
    assert layers[1 + 2 * k] == Stroke(Palette(k % 4), Polyline(Spots(a, series[k].points)));
  }
}
