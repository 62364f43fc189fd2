/** Integer pixel coordinates, as used by every shape and by the canvas. */
module Points {

  /** A 2D integer coordinate; equality is exact coordinate equality. */
  datatype Point = Point(x: int, y: int)

  /** Exact construction: no validation, coordinates may lie off any canvas. */
  function New(x: int, y: int): (p: Point)
    ensures p.x == x && p.y == y
  {
    Point(x, y)
  }

  /** A uniformly drawn point of a `width` x `height` canvas. The random
      generator is not modelled: any point of the range may be returned. */
  method Random(width: int, height: int) returns (p: Point)
    requires width > 0 && height > 0
    ensures 0 <= p.x < width && 0 <= p.y < height
  {
    var y: int :| 0 <= y < height;
    var x: int :| 0 <= x < width;
    p := Point(x, y);
  }

  function Abs(v: int): nat
  {
    if v < 0 then -v else v
  }

  function Min(a: int, b: int): int
  {
    if a < b then a else b
  }

  function Max(a: int, b: int): int
  {
    if a < b then b else a
  }

  /** `p` lies in the axis-aligned box spanned by `a` and `b`, borders included. */
  predicate InBox(a: Point, b: Point, p: Point)
  {
    Min(a.x, b.x) <= p.x <= Max(a.x, b.x) && Min(a.y, b.y) <= p.y <= Max(a.y, b.y)
  }

  /** `q` is one of the eight neighbours of `p` (so never `p` itself). */
  predicate Neighbours(p: Point, q: Point)
  {
    Abs(q.x - p.x) <= 1 && Abs(q.y - p.y) <= 1 && p != q
  }
}
