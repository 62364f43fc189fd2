/** The pixel canvas (the `raster` crate's image) and the clipped pixel write
    of `Displayable for Image`. */
module Canvas {
  import opened Points

  /** One 8-bit colour channel. */
  type Channel = v: int | 0 <= v <= 255

  datatype Color = Color(r: Channel, g: Channel, b: Channel, a: Channel)

  /** A width x height grid of colours, zero-indexed, origin top-left. */
  datatype Image = Image(width: int, height: int, pixels: map<Point, Color>) {

    predicate InBounds(p: Point)
    {
      0 <= p.x < width && 0 <= p.y < height
    }

    /** The grid holds exactly one colour per in-range position. */
    ghost predicate Valid()
    {
      0 <= width && 0 <= height && forall p :: p in pixels <==> InBounds(p)
    }
  }

  /** The clipped write: the colour lands at (x, y) when that position is on
      the canvas, and an off-canvas write is silently dropped. */
  function Display(img: Image, x: int, y: int, color: Color): (r: Image)
    requires img.Valid()
    ensures r.Valid() && r.width == img.width && r.height == img.height
    ensures img.InBounds(Point(x, y)) ==> r.pixels[Point(x, y)] == color
    ensures forall p :: img.InBounds(p) && p != Point(x, y) ==> r.pixels[p] == img.pixels[p]
    ensures !img.InBounds(Point(x, y)) ==> r == img
  {
    if 0 <= x && x < img.width && 0 <= y && y < img.height then
      img.(pixels := img.pixels[Point(x, y) := color])
    else
      img
  }

  /** Writing the same colour to the same place twice is writing it once. */
  lemma DisplayIdempotent(img: Image, x: int, y: int, color: Color)
    requires img.Valid()
    ensures Display(Display(img, x, y, color), x, y, color) == Display(img, x, y, color)
  {
  }

  /** Writes to two different positions do not interfere with each other. */
  lemma DisplayCommutes(img: Image, p: Point, q: Point, c: Color, d: Color)
    requires img.Valid() && p != q
    ensures Display(Display(img, p.x, p.y, c), q.x, q.y, d)
         == Display(Display(img, q.x, q.y, d), p.x, p.y, c)
  {
    var l := Display(Display(img, p.x, p.y, c), q.x, q.y, d);
    var r := Display(Display(img, q.x, q.y, d), p.x, p.y, c);
    assert l.pixels == r.pixels;
  }

  /** The clipped write applied to every position of `ps`, in order. */
  function PlotAll(img: Image, ps: seq<Point>, color: Color): (r: Image)
    requires img.Valid()
    ensures r.Valid() && r.width == img.width && r.height == img.height
    ensures forall p :: img.InBounds(p) ==> r.pixels[p] == if p in ps then color else img.pixels[p]
    decreases |ps|
  {
    if |ps| == 0 then img
    else
      var last := ps[|ps| - 1];
      Display(PlotAll(img, ps[..|ps| - 1], color), last.x, last.y, color)
  }

  /** Two valid images of the same size that agree on every pixel are equal. */
  lemma SameImage(a: Image, b: Image)
    requires a.Valid() && b.Valid() && a.width == b.width && a.height == b.height
    requires forall p :: a.InBounds(p) ==> a.pixels[p] == b.pixels[p]
    ensures a == b
  {
    assert a.pixels == b.pixels;
  }

  /** Plotting positions none of which is on the canvas changes nothing. */
  lemma PlotAllOffCanvas(img: Image, ps: seq<Point>, color: Color)
    requires img.Valid()
    requires forall i :: 0 <= i < |ps| ==> !img.InBounds(ps[i])
    ensures PlotAll(img, ps, color) == img
  {
    var r := PlotAll(img, ps, color);
    forall p | img.InBounds(p)
      ensures r.pixels[p] == img.pixels[p]
    {
      assert p !in ps;
    }
    SameImage(r, img);
  }
}
