/**
  The exclusion circle of `setup`: the bounding box of the land cells, the
  circle built from it, and the water cells far enough from it to anchor a
  headline (`allowedHeadlinePixels`).
*/
module Exclusion {
  import opened Geometry

  /** The radius is half the larger side of the box, times 1.05. */
  const RadiusFactor: real := 1.05

  datatype Box = Box(minX: int, maxX: int, minY: int, maxY: int)

  datatype Circle = Circle(cx: real, cy: real, r: real)

  /**
    `b` is what the bounding-box loop leaves when it starts from
    `minX = mapW, maxX = 0, minY = mapH, maxY = 0`: the minimum of
    `mapW` and every land x, the maximum of 0 and every land x, and so on.
  */
  ghost predicate IsBoundingBox(b: Box, land: seq<Cell>, mapW: int, mapH: int)
  {
    && b.minX <= mapW && b.maxX >= 0 && b.minY <= mapH && b.maxY >= 0
    && (forall i :: 0 <= i < |land| ==>
          b.minX <= land[i].x <= b.maxX && b.minY <= land[i].y <= b.maxY)
    && (b.minX == mapW || exists i :: 0 <= i < |land| && land[i].x == b.minX)
    && (b.maxX == 0 || exists i :: 0 <= i < |land| && land[i].x == b.maxX)
    && (b.minY == mapH || exists i :: 0 <= i < |land| && land[i].y == b.minY)
    && (b.maxY == 0 || exists i :: 0 <= i < |land| && land[i].y == b.maxY)
  }

  /** The loop over `landPixels` that updates `minX`, `maxX`, `minY`, `maxY`. */
  method BoundingBox(land: seq<Cell>, mapW: int, mapH: int) returns (b: Box)
    ensures IsBoundingBox(b, land, mapW, mapH)
  {
    var minX, maxX := mapW, 0;
    var minY, maxY := mapH, 0;
    for n := 0 to |land|
      invariant IsBoundingBox(Box(minX, maxX, minY, maxY), land[..n], mapW, mapH)
    {
      var p := land[n];
      assert forall i :: 0 <= i < n ==> land[..n + 1][i] == land[..n][i];
      assert land[..n + 1][n] == p;
      if p.x < minX { minX := p.x; }
      if p.x > maxX { maxX := p.x; }
      if p.y < minY { minY := p.y; }
      if p.y > maxY { maxY := p.y; }
    }
    assert land[..|land|] == land;
    b := Box(minX, maxX, minY, maxY);
  }

  /** `circleCenterX/Y` and `circleRadius` from the box. */
  function CircleOf(b: Box): (c: Circle)
    ensures b.minX <= b.maxX && b.minY <= b.maxY ==> c.r >= 0.0
    ensures c.r < 0.0 <==> b.maxX - b.minX < 0 && b.maxY - b.minY < 0
  {
    var side := if b.maxX - b.minX >= b.maxY - b.minY then b.maxX - b.minX else b.maxY - b.minY;
    Circle((b.minX + b.maxX) as real / 2.0, (b.minY + b.maxY) as real / 2.0,
           side as real / 2.0 * RadiusFactor)
  }

  function SqDist(p: Cell, c: Circle): real
  {
    (p.x as real - c.cx) * (p.x as real - c.cx) + (p.y as real - c.cy) * (p.y as real - c.cy)
  }

  /** `dist(p, centre) >= circleRadius`, decided on squared distances. */
  predicate Outside(p: Cell, c: Circle)
  {
    c.r <= 0.0 || SqDist(p, c) >= c.r * c.r
  }

  /** The water cells, in order, that lie outside the circle. */
  function Allowed(water: seq<Cell>, c: Circle): (r: seq<Cell>)
    ensures |r| <= |water|
    ensures forall i :: 0 <= i < |r| ==> Outside(r[i], c) && r[i] in water
  {
    if water == [] then []
    else
      var front := Allowed(water[..|water| - 1], c);
      var last := water[|water| - 1];
      front + (if Outside(last, c) then [last] else [])
  }

  /** The loop over `waterPixels` that fills `allowedHeadlinePixels`. */
  method FilterAllowed(water: seq<Cell>, c: Circle) returns (allowed: seq<Cell>)
    ensures allowed == Allowed(water, c)
  {
    allowed := [];
    for n := 0 to |water|
      invariant allowed == Allowed(water[..n], c)
    {
      var p := water[n];
      assert water[..n + 1][..n] == water[..n];
      if Outside(p, c) {
        allowed := allowed + [p];
      }
    }
    assert water[..|water|] == water;
  }

  /**
    The squared comparison is the source's `d >= circleRadius` for the true
    distance `d` (any non-negative `d` with `d * d` the squared distance).
  */
  lemma OutsideIffFar(p: Cell, c: Circle, d: real)
    requires d >= 0.0 && d * d == SqDist(p, c)
    ensures Outside(p, c) <==> d >= c.r
  {
    if c.r > 0.0 {
      if d >= c.r {
        SquareMonotone(c.r, d);
      } else {
        SquareStrictlyMonotone(d, c.r);
      }
    }
  }

  lemma SquareMonotone(a: real, b: real)
    requires 0.0 <= a <= b
    ensures a * a <= b * b
  {
    assert a * a <= a * b;
    assert a * b <= b * b;
  }

  lemma SquareStrictlyMonotone(a: real, b: real)
    requires 0.0 <= a < b
    ensures a * a < b * b
  {
    var e := b - a;
    assert b * b == a * a + e * (a + b);
    assert e * (a + b) > 0.0;
  }

  /** A water cell is allowed exactly when it lies outside the circle. */
  lemma {:induction false} AllowedMembers(water: seq<Cell>, c: Circle, p: Cell)
    ensures p in Allowed(water, c) <==> p in water && Outside(p, c)
  {
    if water != [] {
      var front := water[..|water| - 1];
      AllowedMembers(front, c, p);
      assert water == front + [water[|water| - 1]];
    }
  }

  /** The filter works piecewise, so it keeps the relative order of the water cells. */
  lemma {:induction false} AllowedAppend(a: seq<Cell>, b: seq<Cell>, c: Circle)
    ensures Allowed(a + b, c) == Allowed(a, c) + Allowed(b, c)
  {
    if b == [] {
      assert a + b == a;
    } else {
      var front := b[..|b| - 1];
      AllowedAppend(a, front, c);
      assert (a + b)[..|a + b| - 1] == a + front;
    }
  }

  /** Hence a subsequence of a row-major list is row-major: before in the result means before in water. */
  lemma {:induction false} AllowedKeepsOrder(water: seq<Cell>, c: Circle, before: (Cell, Cell) -> bool)
    requires forall i, j :: 0 <= i < j < |water| ==> before(water[i], water[j])
    ensures forall i, j :: 0 <= i < j < |Allowed(water, c)| ==>
      before(Allowed(water, c)[i], Allowed(water, c)[j])
  {
    if water != [] {
      var front := water[..|water| - 1];
      var last := water[|water| - 1];
      AllowedKeepsOrder(front, c, before);
      var r := Allowed(water, c);
      var f := Allowed(front, c);
      forall i, j | 0 <= i < j < |r|
        ensures before(r[i], r[j])
      {
        if j >= |f| {
          assert r[j] == last;
          assert r[i] in front;
          var k :| 0 <= k < |front| && front[k] == r[i];
          assert water[k] == r[i];
        }
      }
    }
  }

  /** With no land the box stays at its initial values and the radius is negative. */
  lemma BoxOfNoLand(b: Box, mapW: int, mapH: int)
    requires mapW > 0 && mapH > 0 && IsBoundingBox(b, [], mapW, mapH)
    ensures b == Box(mapW, 0, mapH, 0)
    ensures CircleOf(b).r < 0.0
  {
  }

  /** So with no land every water cell may anchor a headline. */
  lemma {:induction false} AllAllowedWhenRadiusNegative(water: seq<Cell>, c: Circle)
    requires c.r < 0.0
    ensures Allowed(water, c) == water
  {
    if water != [] {
      AllAllowedWhenRadiusNegative(water[..|water| - 1], c);
      assert water == water[..|water| - 1] + [water[|water| - 1]];
    }
  }

  /** For some land, every land cell lies in the box and the radius is not negative. */
  lemma LandCircle(b: Box, land: seq<Cell>, mapW: int, mapH: int)
    requires IsBoundingBox(b, land, mapW, mapH) && |land| > 0
    ensures b.minX <= b.maxX && b.minY <= b.maxY
    ensures CircleOf(b).r >= 0.0
    ensures forall p :: p in land ==> b.minX <= p.x <= b.maxX && b.minY <= p.y <= b.maxY
  {
    assert b.minX <= land[0].x <= b.maxX;
  }
}
