/** Plane geometry shared by both graph implementations: canvas points, the
    box spanned by two corners, the circular hit test and translation.
    JavaScript numbers are modelled as exact reals. */
module Geometry {

  /** A canvas coordinate `{x, y}`. */
  datatype Point = Point(x: real, y: real)

  /** The radius of a drawn node, `specs.radius`. */
  const Radius: real := 39.0

  /** `Math.min` and `Math.max` on two numbers. */
  function Min(a: real, b: real): real { if a < b then a else b }
  function Max(a: real, b: real): real { if a < b then b else a }

  /** `tleft` of select_in_rect: the corner with the smaller coordinates. */
  function TopLeft(c1: Point, c2: Point): Point {
    Point(Min(c1.x, c2.x), Min(c1.y, c2.y))
  }

  /** `bright` of select_in_rect: the corner with the larger coordinates. */
  function BottomRight(c1: Point, c2: Point): Point {
    Point(Max(c1.x, c2.x), Max(c1.y, c2.y))
  }

  /** The containment test of select_in_rect, against the normalised corners. */
  predicate InRect(p: Point, c1: Point, c2: Point) {
    var tleft, bright := TopLeft(c1, c2), BottomRight(c1, c2);
    p.x >= tleft.x && p.x <= bright.x && p.y >= tleft.y && p.y <= bright.y
  }

  /** `v` lies between `a` and `b`, whichever of the two is smaller. */
  predicate Between(v: real, a: real, b: real) {
    (a <= v <= b) || (b <= v <= a)
  }

  /** The box test does not depend on which corner was dragged first: it is
      "between the corners" on each axis. */
  lemma InRectBetweenCorners(p: Point, c1: Point, c2: Point)
    ensures InRect(p, c1, c2) <==> Between(p.x, c1.x, c2.x) && Between(p.y, c1.y, c2.y)
    ensures InRect(p, c1, c2) <==> InRect(p, c2, c1)
    ensures InRect(c1, c1, c2) && InRect(c2, c1, c2)
  {
  }

  /** The hit test of is_hovering, `Math.hypot(dx, dy) <= radius`. A length
      is never negative, so a negative radius hits nothing; otherwise the
      comparison is the same on squares. */
  predicate WithinRadius(center: Point, coord: Point, radius: real) {
    var dx, dy := center.x - coord.x, center.y - coord.y;
    0.0 <= radius && dx * dx + dy * dy <= radius * radius
  }

  /** A larger radius (a larger `scale` in hovering) hits at least what a
      smaller one hits, and the test is symmetric in the two points. */
  lemma WithinRadiusMonotone(center: Point, coord: Point, r1: real, r2: real)
    requires r1 <= r2
    ensures WithinRadius(center, coord, r1) ==> WithinRadius(center, coord, r2)
    ensures WithinRadius(center, coord, r1) <==> WithinRadius(coord, center, r1)
  {
    if 0.0 <= r1 {
      assert r1 * r1 <= r1 * r2 <= r2 * r2;
    }
    var dx, dy := center.x - coord.x, center.y - coord.y;
    assert (-dx) * (-dx) == dx * dx && (-dy) * (-dy) == dy * dy;
  }

  /** A hit lies in the square of side `2 * radius` around the centre, and
      with a non-negative radius the centre itself always hits. */
  lemma WithinRadiusBounds(center: Point, coord: Point, radius: real)
    ensures WithinRadius(center, coord, radius) ==>
      0.0 <= radius
      && center.x - radius <= coord.x <= center.x + radius
      && center.y - radius <= coord.y <= center.y + radius
    ensures 0.0 <= radius ==> WithinRadius(center, center, radius)
  {
    var dx, dy := center.x - coord.x, center.y - coord.y;
    if WithinRadius(center, coord, radius) {
      SquareBelow(dx, radius, dy * dy);
      SquareBelow(dy, radius, dx * dx);
    }
  }

  lemma SquareBelow(d: real, r: real, other: real)
    requires 0.0 <= r && 0.0 <= other && d * d + other <= r * r
    ensures -r <= d <= r
  {
    if r < d {
      SquareGrows(r, d);
      assert false;
    } else if d < -r {
      SquareGrows(r, -d);
      assert false;
    }
  }

  lemma SquareGrows(a: real, b: real)
    requires 0.0 <= a < b
    ensures a * a < b * b
  {
    var gap := b - a;
    assert b * b == a * a + (a + b) * gap;
    assert (a + b) * gap > 0.0;
  }

  /** `position.x += delta.x; position.y += delta.y`. */
  function Translate(p: Point, delta: Point): Point
  {
    Point(p.x + delta.x, p.y + delta.y)
  }
}
