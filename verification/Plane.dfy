/** Points of the plane. */
module Plane {
  datatype Point = Point(x: real, y: real)

  function Sq(x: real): real {
    x * x
  }

  function Dot(o: Point, a: Point, b: Point): real {
    (a.x - o.x) * (b.x - o.x) + (a.y - o.y) * (b.y - o.y)
  }

  /** The square of the distance. */
  function Dist2(a: Point, b: Point): real {
    Dot(a, b, b)
  }

  lemma NonNegative(p: Point, q: Point)
    ensures Dist2(p, q) >= 0.0
  {
  }
}
