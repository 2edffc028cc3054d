/**
 * Integer points and half-open rectangles, as the image package uses them to
 * lay out the merged canvases.
 */
module Geometry {

  datatype Point = Point(x: int, y: int)
  {
    function Add(q: Point): (r: Point)
    {
      Point(x + q.x, y + q.y)
    }
  }

  /** The points p with min.x <= p.x < max.x and min.y <= p.y < max.y. */
  datatype Rectangle = Rectangle(min: Point, max: Point)
  {
    function Dx(): (d: int) { max.x - min.x }

    function Dy(): (d: int) { max.y - min.y }

    function Size(): (d: Point) { Point(Dx(), Dy()) }

    predicate Contains(p: Point)
    {
      min.x <= p.x < max.x && min.y <= p.y < max.y
    }

    predicate Empty()
    {
      min.x >= max.x || min.y >= max.y
    }

    /** The rectangle translated by p. */
    function Add(p: Point): (r: Rectangle)
      ensures r.Size() == Size()
    {
      Rectangle(min.Add(p), max.Add(p))
    }

    /** The largest rectangle contained in both; empty when they do not meet. */
    function Intersect(s: Rectangle): (r: Rectangle)
    {
      Rectangle(Point(Max(min.x, s.min.x), Max(min.y, s.min.y)),
                Point(Min(max.x, s.max.x), Min(max.y, s.max.y)))
    }
  }

  function Max(a: int, b: int): (m: int) { if a < b then b else a }

  function Min(a: int, b: int): (m: int) { if a < b then a else b }

  /** A point lies in the intersection exactly when it lies in both rectangles. */
  lemma IntersectContains(r: Rectangle, s: Rectangle, p: Point)
    ensures r.Intersect(s).Contains(p) <==> r.Contains(p) && s.Contains(p)
  {
  }

  /** The bounds of an image of the given size anchored at the origin. */
  function Bounds(width: nat, height: nat): (r: Rectangle)
    ensures r.min == Point(0, 0) && r.Size() == Point(width, height)
  {
    Rectangle(Point(0, 0), Point(width, height))
  }
}
