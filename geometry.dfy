/** Plane geometry of the game, over exact reals: points, hulls as point
    lists, the average-of-points centre, translation and normalisation. */
module Geometry {

  datatype Point = Point(x: real, y: real)

  const Origin := Point(0.0, 0.0)

  /** A hull: the outline of a boat, at least three vertices, not closed. */
  type Polygon = ps: seq<Point> | |ps| >= 3 witness [Origin, Origin, Origin]

  function Plus(p: Point, q: Point): Point { Point(p.x + q.x, p.y + q.y) }

  /** Sum of the x coordinates, accumulated front to back. */
  function SumX(ps: seq<Point>): real {
    if ps == [] then 0.0 else SumX(ps[..|ps| - 1]) + ps[|ps| - 1].x
  }

  /** Sum of the y coordinates, accumulated front to back. */
  function SumY(ps: seq<Point>): real {
    if ps == [] then 0.0 else SumY(ps[..|ps| - 1]) + ps[|ps| - 1].y
  }

  lemma SumSnoc(ps: seq<Point>, q: Point)
    ensures SumX(ps + [q]) == SumX(ps) + q.x && SumY(ps + [q]) == SumY(ps) + q.y
  {
    assert (ps + [q])[..|ps|] == ps;
  }

  /** The arithmetic mean of the points; undefined on no points. */
  function Centroid(ps: seq<Point>): Point
    requires |ps| > 0
  {
    Point(SumX(ps) / |ps| as real, SumY(ps) / |ps| as real)
  }

  /** get_polygon_center: the accumulating loop computes the mean. */
  method GetPolygonCenter(points: seq<Point>) returns (c: Point)
    requires |points| > 0
    ensures c == Centroid(points)
  {
    var totalX, totalY := 0.0, 0.0;
    var i := 0;
    while i < |points|
      invariant 0 <= i <= |points|
      invariant totalX == SumX(points[..i]) && totalY == SumY(points[..i])
    {
      assert points[..i + 1][..i] == points[..i];
      totalX := totalX + points[i].x;
      totalY := totalY + points[i].y;
      i := i + 1;
    }
    assert points[..|points|] == points;
    c := Point(totalX / |points| as real, totalY / |points| as real);
  }

  /** Every point offset by `off`, in the same order. */
  function Translate(ps: seq<Point>, off: Point): (r: seq<Point>)
    ensures |r| == |ps|
  {
    if ps == [] then [] else Translate(ps[..|ps| - 1], off) + [Plus(ps[|ps| - 1], off)]
  }

  lemma {:induction false} TranslateAt(ps: seq<Point>, off: Point, i: nat)
    requires i < |ps|
    ensures Translate(ps, off)[i] == Plus(ps[i], off)
  {
    if i < |ps| - 1 {
      TranslateAt(ps[..|ps| - 1], off, i);
    }
  }

  /** move_polygon: the loop builds the translated list. */
  method MovePolygon(poly: seq<Point>, movement: Point) returns (newPoly: seq<Point>)
    ensures newPoly == Translate(poly, movement)
    ensures forall i :: 0 <= i < |poly| ==> newPoly[i] == Plus(poly[i], movement)
  {
    newPoly := [];
    var i := 0;
    while i < |poly|
      invariant 0 <= i <= |poly|
      invariant newPoly == Translate(poly[..i], movement)
    {
      assert poly[..i + 1][..i] == poly[..i];
      newPoly := newPoly + [Plus(poly[i], movement)];
      i := i + 1;
    }
    assert poly[..|poly|] == poly;
    forall i | 0 <= i < |poly| ensures newPoly[i] == Plus(poly[i], movement) {
      TranslateAt(poly, movement, i);
    }
  }

  /** (a + n * d) / n == a / n + d for a positive count n. */
  lemma MeanShift(a: real, n: real, d: real)
    requires n > 0.0
    ensures (a + n * d) / n == a / n + d
  {
    var q := a / n;
    assert q * n == a;
    assert a + n * d == (q + d) * n;
  }

  /** n copies of d added up: multiplication by a count, kept linear. */
  function Times(n: nat, d: real): real {
    if n == 0 then 0.0 else Times(n - 1, d) + d
  }

  lemma Distrib(k: real, d: real)
    ensures (k + 1.0) * d == k * d + d
  {
  }

  lemma {:induction false} TimesMul(n: nat, d: real)
    ensures Times(n, d) == n as real * d
  {
    if n > 0 {
      TimesMul(n - 1, d);
      var k := (n - 1) as real;
      assert n as real == k + 1.0;
      Distrib(k, d);
    }
  }

  lemma {:induction false} SumTranslateX(ps: seq<Point>, off: Point)
    ensures SumX(Translate(ps, off)) == SumX(ps) + Times(|ps|, off.x)
  {
    if ps != [] {
      var init := ps[..|ps| - 1];
      var t0 := Translate(init, off);
      SumTranslateX(init, off);
      var t := Translate(ps, off);
      assert t == t0 + [Plus(ps[|ps| - 1], off)];
      assert t[..|t| - 1] == t0;
    }
  }

  lemma {:induction false} SumTranslateY(ps: seq<Point>, off: Point)
    ensures SumY(Translate(ps, off)) == SumY(ps) + Times(|ps|, off.y)
  {
    if ps != [] {
      var init := ps[..|ps| - 1];
      var t0 := Translate(init, off);
      SumTranslateY(init, off);
      var t := Translate(ps, off);
      assert t == t0 + [Plus(ps[|ps| - 1], off)];
      assert t[..|t| - 1] == t0;
    }
  }

  /** Adding n copies of d to a total of n values adds d to their mean. */
  lemma MeanTranslate(total: real, moved: real, n: nat, d: real)
    requires n > 0 && moved == total + Times(n, d)
    ensures moved / n as real == total / n as real + d
  {
    TimesMul(n, d);
    MeanShift(total, n as real, d);
  }

  /** Translating a point list moves its centre by exactly the offset. */
  lemma CentroidTranslate(ps: seq<Point>, off: Point)
    requires |ps| > 0
    ensures Centroid(Translate(ps, off)) == Plus(Centroid(ps), off)
  {
    var t := Translate(ps, off);
    SumTranslateX(ps, off);
    SumTranslateY(ps, off);
    MeanTranslate(SumX(ps), SumX(t), |ps|, off.x);
    MeanTranslate(SumY(ps), SumY(t), |ps|, off.y);
  }

  lemma {:induction false} SumBoundsX(ps: seq<Point>, lo: real, hi: real)
    requires forall i :: 0 <= i < |ps| ==> lo <= ps[i].x <= hi
    ensures Times(|ps|, lo) <= SumX(ps) <= Times(|ps|, hi)
  {
    if ps != [] {
      var init := ps[..|ps| - 1];
      assert forall i :: 0 <= i < |init| ==> init[i] == ps[i];
      SumBoundsX(init, lo, hi);
    }
  }

  lemma {:induction false} SumBoundsY(ps: seq<Point>, lo: real, hi: real)
    requires forall i :: 0 <= i < |ps| ==> lo <= ps[i].y <= hi
    ensures Times(|ps|, lo) <= SumY(ps) <= Times(|ps|, hi)
  {
    if ps != [] {
      var init := ps[..|ps| - 1];
      assert forall i :: 0 <= i < |init| ==> init[i] == ps[i];
      SumBoundsY(init, lo, hi);
    }
  }

  lemma DivBounds(s: real, n: real, lo: real, hi: real)
    requires n > 0.0 && n * lo <= s <= n * hi
    ensures lo <= s / n <= hi
  {
    var q := s / n;
    assert q * n == s;
    assert (q - lo) * n >= 0.0 && (hi - q) * n >= 0.0;
  }

  /** A total between n * lo and n * hi has its mean between lo and hi. */
  lemma MeanBounds(total: real, n: nat, lo: real, hi: real)
    requires n > 0 && Times(n, lo) <= total <= Times(n, hi)
    ensures lo <= total / n as real <= hi
  {
    TimesMul(n, lo);
    TimesMul(n, hi);
    DivBounds(total, n as real, lo, hi);
  }

  /** The centre lies inside the bounding box of the points. */
  lemma CentroidInBox(ps: seq<Point>, lo: Point, hi: Point)
    requires |ps| > 0
    requires forall i :: 0 <= i < |ps| ==> lo.x <= ps[i].x <= hi.x && lo.y <= ps[i].y <= hi.y
    ensures lo.x <= Centroid(ps).x <= hi.x && lo.y <= Centroid(ps).y <= hi.y
  {
    assert forall i :: 0 <= i < |ps| ==> lo.x <= ps[i].x <= hi.x;
    assert forall i :: 0 <= i < |ps| ==> lo.y <= ps[i].y <= hi.y;
    SumBoundsX(ps, lo.x, hi.x);
    SumBoundsY(ps, lo.y, hi.y);
    MeanBounds(SumX(ps), |ps|, lo.x, hi.x);
    MeanBounds(SumY(ps), |ps|, lo.y, hi.y);
  }

  /** normalize_vector, with the length supplied by the caller: divide by a
      nonzero length, hand the input back when the length is zero. */
  function Normalize(v: Point, norm: real): (r: Point)
    ensures norm == 0.0 ==> r == v
    ensures norm != 0.0 ==> r.x * norm == v.x && r.y * norm == v.y
  {
    if norm != 0.0 then Point(v.x / norm, v.y / norm) else v
  }

  /** On the nonzero-length branch the result points along the input: the
      two are parallel (their cross product vanishes). */
  lemma NormalizeParallel(v: Point, norm: real)
    requires norm != 0.0
    ensures var r := Normalize(v, norm); r.x * v.y == r.y * v.x
  {
    var r := Normalize(v, norm);
    assert r.x * v.y == r.x * (r.y * norm) == r.y * (r.x * norm);
  }

  lemma NormalizeThreeFour()
    ensures Normalize(Point(3.0, 4.0), 5.0) == Point(0.6, 0.8)
  {
  }
}
