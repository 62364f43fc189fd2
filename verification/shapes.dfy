/** The drawable shapes: points, lines, triangles and rectangles as one closed
    variant type with an exhaustive `draw`, plus the circle's constructors. */
module Shapes {
  import opened Points
  import opened Canvas
  import opened Bresenham

  /** Every drawable shape whose drawing is integer-only. */
  datatype Shape =
    | PointShape(point: Point)
    | Line(point_1: Point, point_2: Point)
    | Triangle(point_1: Point, point_2: Point, point_3: Point)
    | Rectangle(point_1: Point, point_2: Point, point_3: Point, point_4: Point)

  /** A circle: a centre and a radius. Its drawing is not modelled. */
  datatype Circle = Circle(center: Point, radius: int)

  /** One drawing call: a single pixel write or one `draw_line` segment. */
  datatype Stroke = Dot(at: Point) | Segment(from: Point, to: Point)

  /** The fields of a rectangle are private, so every rectangle comes from
      `Rectangle::new`: its last two points are the derived corners. */
  predicate WellFormed(s: Shape)
  {
    s.Rectangle? ==>
      s.point_3 == Point(s.point_1.x, s.point_2.y) && s.point_4 == Point(s.point_2.x, s.point_1.y)
  }

  function NewLine(p1: Point, p2: Point): (l: Shape)
    ensures l.Line? && l.point_1 == p1 && l.point_2 == p2
  {
    Line(p1, p2)
  }

  function NewTriangle(p1: Point, p2: Point, p3: Point): (t: Shape)
    ensures t.Triangle? && t.point_1 == p1 && t.point_2 == p2 && t.point_3 == p3
  {
    Triangle(p1, p2, p3)
  }

  /** The four corners of the axis-aligned box with opposite corners `a` and `b`. */
  function BoxCorners(a: Point, b: Point): set<Point>
  {
    {Point(a.x, a.y), Point(a.x, b.y), Point(b.x, a.y), Point(b.x, b.y)}
  }

  /** `Rectangle::new`: keeps the two given corners and derives the other two. */
  function NewRectangle(p1: Point, p2: Point): (r: Shape)
    ensures r.Rectangle? && WellFormed(r)
    ensures r.point_1 == p1 && r.point_2 == p2
    ensures {r.point_1, r.point_2, r.point_3, r.point_4} == BoxCorners(p1, p2)
  {
    var point_3 := New(p1.x, p2.y);
    var point_4 := New(p2.x, p1.y);
    Rectangle(p1, p2, point_3, point_4)
  }

  function NewCircle(center: Point, radius: int): (c: Circle)
    ensures c.center == center && c.radius == radius
  {
    Circle(center, radius)
  }

  /** `Drawable::color`: three uniformly drawn channels and a fully opaque
      alpha. The random generator is not modelled: any such colour may come back. */
  method RandomColor() returns (c: Color)
    ensures c.a == 255
  {
    var r: Channel :| true;
    var g: Channel :| true;
    var b: Channel :| true;
    c := Color(r, g, b, 255);
  }

  /** `Line::random`: both endpoints drawn inside the canvas. */
  method RandomLine(width: int, height: int) returns (l: Shape)
    requires width > 0 && height > 0
    ensures l.Line?
    ensures 0 <= l.point_1.x < width && 0 <= l.point_1.y < height
    ensures 0 <= l.point_2.x < width && 0 <= l.point_2.y < height
  {
    var p1 := Random(width, height);
    var p2 := Random(width, height);
    l := Line(p1, p2);
  }

  /** `Circle::random`: a radius from 5 to 20 inclusive, a centre inside the canvas. */
  method RandomCircle(width: int, height: int) returns (c: Circle)
    requires width > 0 && height > 0
    ensures 5 <= c.radius <= 20
    ensures 0 <= c.center.x < width && 0 <= c.center.y < height
  {
    var radius: int :| 5 <= radius <= 20;
    var center := Random(width, height);
    c := Circle(center, radius);
  }

  /** The defining points of a shape, in field order. */
  function Vertices(s: Shape): seq<Point>
  {
    match s
    case PointShape(p) => [p]
    case Line(p1, p2) => [p1, p2]
    case Triangle(p1, p2, p3) => [p1, p2, p3]
    case Rectangle(p1, p2, p3, p4) => [p1, p2, p3, p4]
  }

  /** The stroke joins `a` and `b`, in either direction. */
  predicate Joins(st: Stroke, a: Point, b: Point)
  {
    st.Segment? && ((st.from == a && st.to == b) || (st.from == b && st.to == a))
  }

  /** The strokes form the closed cycle vs[0] - vs[1] - ... - vs[n-1] - vs[0]. */
  predicate Cycle(sts: seq<Stroke>, vs: seq<Point>)
  {
    |sts| == |vs| > 0 && forall i :: 0 <= i < |sts| ==> Joins(sts[i], vs[i], vs[(i + 1) % |vs|])
  }

  predicate AxisAligned(st: Stroke)
  {
    st.Segment? && (st.from.x == st.to.x || st.from.y == st.to.y)
  }

  /** The fixed list of drawing calls each shape's `draw` makes, in order. */
  function Strokes(s: Shape): (sts: seq<Stroke>)
    ensures s.PointShape? ==> sts == [Dot(s.point)]
    ensures s.Line? ==> sts == [Segment(s.point_1, s.point_2)]
    ensures s.Triangle? ==> Cycle(sts, [s.point_1, s.point_2, s.point_3])
    ensures s.Rectangle? ==> Cycle(sts, [s.point_1, s.point_3, s.point_2, s.point_4])
    ensures s.Rectangle? && WellFormed(s) ==> forall i :: 0 <= i < |sts| ==> AxisAligned(sts[i])
    ensures forall i :: 0 <= i < |sts| ==> sts[i].Dot? ==> sts[i].at in Vertices(s)
    ensures forall i :: 0 <= i < |sts| ==> sts[i].Segment? ==>
              sts[i].from in Vertices(s) && sts[i].to in Vertices(s)
  {
    match s
    case PointShape(p) => [Dot(p)]
    case Line(p1, p2) => [Segment(p1, p2)]
    case Triangle(p1, p2, p3) => [Segment(p1, p2), Segment(p2, p3), Segment(p3, p1)]
    case Rectangle(p1, p2, p3, p4) =>
      [Segment(p1, p3), Segment(p2, p3), Segment(p2, p4), Segment(p4, p1)]
  }

  /** The pixels one stroke writes, in order. */
  function StrokePixels(st: Stroke): seq<Point>
  {
    match st
    case Dot(p) => [p]
    case Segment(a, b) => LinePixels(a.x, a.y, b.x, b.y)
  }

  /** Some stroke of `sts` writes at `p`. */
  ghost predicate Covered(sts: seq<Stroke>, p: Point)
  {
    exists i :: 0 <= i < |sts| && p in StrokePixels(sts[i])
  }

  /** The strokes drawn one after the other, stroke i in colour i. */
  function Render(img: Image, sts: seq<Stroke>, colors: seq<Color>): (r: Image)
    requires img.Valid() && |colors| == |sts|
    ensures r.Valid() && r.width == img.width && r.height == img.height
    ensures forall p :: img.InBounds(p) && !Covered(sts, p) ==> r.pixels[p] == img.pixels[p]
    ensures forall p :: img.InBounds(p) && Covered(sts, p) ==> r.pixels[p] in colors
    decreases |sts|
  {
    if |sts| == 0 then img
    else
      CoveredCons(sts);
      Render(PlotAll(img, StrokePixels(sts[0]), colors[0]), sts[1..], colors[1..])
  }

  /** A pixel is covered by a list of strokes when the first stroke or one of
      the rest writes it. */
  lemma CoveredCons(sts: seq<Stroke>)
    requires |sts| > 0
    ensures forall p :: Covered(sts, p) <==> p in StrokePixels(sts[0]) || Covered(sts[1..], p)
  {
    forall p
      ensures Covered(sts, p) <==> p in StrokePixels(sts[0]) || Covered(sts[1..], p)
    {
      if Covered(sts, p) {
        var i :| 0 <= i < |sts| && p in StrokePixels(sts[i]);
        if i > 0 {
          assert p in StrokePixels(sts[1..][i - 1]);
        }
      }
      if Covered(sts[1..], p) {
        var i :| 0 <= i < |sts[1..]| && p in StrokePixels(sts[1..][i]);
        assert p in StrokePixels(sts[i + 1]);
      }
    }
  }

  /** The colours of `n` successive `Drawable::color` calls: each one opaque,
      independently drawn. */
  method FreshColors(n: nat) returns (cs: seq<Color>)
    ensures |cs| == n
    ensures forall i :: 0 <= i < n ==> cs[i].a == 255
  {
    cs := [];
    while |cs| < n
      invariant |cs| <= n
      invariant forall i :: 0 <= i < |cs| ==> cs[i].a == 255
    {
      var c := RandomColor();
      cs := cs + [c];
    }
  }

  /** Drawing a list of strokes: the first stroke, then the rest on its result. */
  lemma RenderFirst(img: Image, sts: seq<Stroke>, colors: seq<Color>)
    requires img.Valid() && |colors| == |sts| > 0
    ensures Render(img, sts, colors)
         == Render(PlotAll(img, StrokePixels(sts[0]), colors[0]), sts[1..], colors[1..])
  {
  }

  /** `Point::draw`: one pixel write at the point, in the colour `colors[0]`. */
  method DrawPoint(img: Image, s: Shape, colors: seq<Color>) returns (r: Image)
    requires img.Valid() && s.PointShape? && |colors| == 1
    ensures r == Render(img, Strokes(s), colors)
  {
    r := Display(img, s.point.x, s.point.y, colors[0]);
    assert PlotAll(img, [s.point], colors[0]) == r by {
      assert [s.point][..0] == [];
    }
    RenderFirst(img, Strokes(s), colors);
  }

  /** `Line::draw`: one `draw_line` from point_1 to point_2, in `colors[0]`. */
  method DrawLineShape(img: Image, s: Shape, colors: seq<Color>) returns (r: Image)
    requires img.Valid() && s.Line? && |colors| == 1
    ensures r == Render(img, Strokes(s), colors)
  {
    var r1, _ := DrawLine(img, s.point_1.x, s.point_1.y, s.point_2.x, s.point_2.y, colors[0]);
    r := r1;
    RenderFirst(img, Strokes(s), colors);
  }

  /** A triangle's strokes drawn in order: its three segments, one `PlotAll` each. */
  lemma RenderTriangle(img: Image, s: Shape, colors: seq<Color>)
    requires img.Valid() && s.Triangle? && |colors| == 3
    ensures var (p1, p2, p3) := (s.point_1, s.point_2, s.point_3);
      var r1 := PlotAll(img, LinePixels(p1.x, p1.y, p2.x, p2.y), colors[0]);
      var r2 := PlotAll(r1, LinePixels(p2.x, p2.y, p3.x, p3.y), colors[1]);
      Render(img, Strokes(s), colors) == PlotAll(r2, LinePixels(p3.x, p3.y, p1.x, p1.y), colors[2])
  {
    var sts := Strokes(s);
    var r1 := PlotAll(img, StrokePixels(sts[0]), colors[0]);
    var r2 := PlotAll(r1, StrokePixels(sts[1]), colors[1]);
    RenderFirst(img, sts, colors);
    RenderFirst(r1, sts[1..], colors[1..]);
    RenderFirst(r2, sts[2..], colors[2..]);
  }

  /** `Triangle::draw`: edges 1-2, 2-3 and 3-1, edge i in `colors[i]`. */
  method DrawTriangle(img: Image, s: Shape, colors: seq<Color>) returns (r: Image)
    requires img.Valid() && s.Triangle? && |colors| == 3
    ensures r == Render(img, Strokes(s), colors)
  {
    var p1, p2, p3 := s.point_1, s.point_2, s.point_3;
    var r1, _ := DrawLine(img, p1.x, p1.y, p2.x, p2.y, colors[0]);
    var r2, _ := DrawLine(r1, p2.x, p2.y, p3.x, p3.y, colors[1]);
    var r3, _ := DrawLine(r2, p3.x, p3.y, p1.x, p1.y, colors[2]);
    r := r3;
    RenderTriangle(img, s, colors);
  }

  /** A rectangle's strokes drawn in order: its four edges, one `PlotAll` each. */
  lemma RenderRectangle(img: Image, s: Shape, colors: seq<Color>)
    requires img.Valid() && s.Rectangle? && |colors| == 4
    ensures var (p1, p2, p3, p4) := (s.point_1, s.point_2, s.point_3, s.point_4);
      var r1 := PlotAll(img, LinePixels(p1.x, p1.y, p3.x, p3.y), colors[0]);
      var r2 := PlotAll(r1, LinePixels(p2.x, p2.y, p3.x, p3.y), colors[1]);
      var r3 := PlotAll(r2, LinePixels(p2.x, p2.y, p4.x, p4.y), colors[2]);
      Render(img, Strokes(s), colors) == PlotAll(r3, LinePixels(p4.x, p4.y, p1.x, p1.y), colors[3])
  {
    var sts := Strokes(s);
    var r1 := PlotAll(img, StrokePixels(sts[0]), colors[0]);
    var r2 := PlotAll(r1, StrokePixels(sts[1]), colors[1]);
    var r3 := PlotAll(r2, StrokePixels(sts[2]), colors[2]);
    RenderFirst(img, sts, colors);
    RenderFirst(r1, sts[1..], colors[1..]);
    RenderFirst(r2, sts[2..], colors[2..]);
    RenderFirst(r3, sts[3..], colors[3..]);
  }

  /** `Rectangle::draw`: edges 1-3, 2-3, 2-4 and 4-1, edge i in `colors[i]`. */
  method DrawRectangle(img: Image, s: Shape, colors: seq<Color>) returns (r: Image)
    requires img.Valid() && s.Rectangle? && |colors| == 4
    ensures r == Render(img, Strokes(s), colors)
  {
    var p1, p2, p3, p4 := s.point_1, s.point_2, s.point_3, s.point_4;
    var r1, _ := DrawLine(img, p1.x, p1.y, p3.x, p3.y, colors[0]);
    var r2, _ := DrawLine(r1, p2.x, p2.y, p3.x, p3.y, colors[1]);
    var r3, _ := DrawLine(r2, p2.x, p2.y, p4.x, p4.y, colors[2]);
    var r4, _ := DrawLine(r3, p4.x, p4.y, p1.x, p1.y, colors[3]);
    r := r4;
    RenderRectangle(img, s, colors);
  }

  /** `Drawable::draw` with the colours of its `color()` calls given, one per
      stroke, dispatched over the closed set of shapes. */
  method DrawWith(img: Image, s: Shape, colors: seq<Color>) returns (r: Image)
    requires img.Valid() && |colors| == |Strokes(s)|
    ensures r == Render(img, Strokes(s), colors)
  {
    match s
    case PointShape(_) => r := DrawPoint(img, s, colors);
    case Line(_, _) => r := DrawLineShape(img, s, colors);
    case Triangle(_, _, _) => r := DrawTriangle(img, s, colors);
    case Rectangle(_, _, _, _) => r := DrawRectangle(img, s, colors);
  }

  /** `Drawable::draw`: a fresh colour per drawing call. The image keeps its
      size; a pixel no stroke touches keeps its colour, and a pixel some stroke
      touches ends fully opaque. The result is the shape's strokes drawn in
      order, each in its own opaque colour. */
  method Draw(img: Image, s: Shape) returns (r: Image)
    requires img.Valid()
    ensures r.Valid() && r.width == img.width && r.height == img.height
    ensures forall p :: img.InBounds(p) && !Covered(Strokes(s), p) ==> r.pixels[p] == img.pixels[p]
    ensures forall p :: img.InBounds(p) && Covered(Strokes(s), p) ==> r.pixels[p].a == 255
    ensures exists cs: seq<Color> ::
              |cs| == |Strokes(s)| && (forall i :: 0 <= i < |cs| ==> cs[i].a == 255) &&
              r == Render(img, Strokes(s), cs)
  {
    var colors := FreshColors(|Strokes(s)|);
    r := DrawWith(img, s, colors);
    RenderOpaque(img, Strokes(s), colors);
  }

  /** Strokes drawn in opaque colours leave every pixel they touch opaque. */
  lemma RenderOpaque(img: Image, sts: seq<Stroke>, colors: seq<Color>)
    requires img.Valid() && |colors| == |sts|
    requires forall i :: 0 <= i < |colors| ==> colors[i].a == 255
    ensures forall p :: img.InBounds(p) && Covered(sts, p) ==> Render(img, sts, colors).pixels[p].a == 255
  {
    var r := Render(img, sts, colors);
    forall p | img.InBounds(p) && Covered(sts, p)
      ensures r.pixels[p].a == 255
    {
      var i :| 0 <= i < |colors| && r.pixels[p] == colors[i];
    }
  }

  /** All the points lie beyond one edge of the canvas. */
  predicate AllBeyondOneEdge(img: Image, vs: seq<Point>)
  {
    (forall v :: v in vs ==> v.x < 0) || (forall v :: v in vs ==> v.x >= img.width) ||
    (forall v :: v in vs ==> v.y < 0) || (forall v :: v in vs ==> v.y >= img.height)
  }

  /** A stroke between points beyond one edge of the canvas writes no pixel on it. */
  lemma StrokeClipped(img: Image, st: Stroke, vs: seq<Point>)
    requires AllBeyondOneEdge(img, vs)
    requires st.Dot? ==> st.at in vs
    requires st.Segment? ==> st.from in vs && st.to in vs
    ensures forall k :: 0 <= k < |StrokePixels(st)| ==> !img.InBounds(StrokePixels(st)[k])
  {
    if st.Segment? {
      LineClipped(img, st.from, st.to);
    }
  }

  /** A shape lying wholly beyond one edge of the canvas leaves every pixel
      unchanged, whatever colours its strokes were given: every write is clipped. */
  lemma ShapeOffCanvas(img: Image, s: Shape, colors: seq<Color>)
    requires img.Valid() && |colors| == |Strokes(s)|
    requires AllBeyondOneEdge(img, Vertices(s))
    ensures Render(img, Strokes(s), colors) == img
  {
    var sts := Strokes(s);
    var r := Render(img, sts, colors);
    forall i | 0 <= i < |sts|
      ensures forall k :: 0 <= k < |StrokePixels(sts[i])| ==> !img.InBounds(StrokePixels(sts[i])[k])
    {
      StrokeClipped(img, sts[i], Vertices(s));
    }
    forall p | img.InBounds(p)
      ensures r.pixels[p] == img.pixels[p]
    {
      assert !Covered(sts, p);
    }
    SameImage(r, img);
  }

  /** The rectangle of the demo, built from its corners in reverse order,
      still derives (150, 50) and (50, 150) as its other two corners. */
  lemma ReversedCornersRectangle()
    ensures var r := NewRectangle(Point(150, 150), Point(50, 50));
      r.point_3 == Point(150, 50) && r.point_4 == Point(50, 150) &&
      forall i :: 0 <= i < 4 ==> AxisAligned(Strokes(r)[i])
  {
  }

  /** Swapping the two corners given to `Rectangle::new` yields the same four
      corners and the same four edges (as segments, up to direction). */
  lemma RectangleCornerOrder(p1: Point, p2: Point)
    ensures var a := NewRectangle(p1, p2);
      var b := NewRectangle(p2, p1);
      {a.point_1, a.point_2, a.point_3, a.point_4} == {b.point_1, b.point_2, b.point_3, b.point_4} &&
      forall i :: 0 <= i < 4 ==> exists j :: 0 <= j < 4 && Joins(Strokes(b)[j], Strokes(a)[i].from, Strokes(a)[i].to)
  {
    var a := NewRectangle(p1, p2);
    var b := NewRectangle(p2, p1);
    assert Joins(Strokes(b)[2], Strokes(a)[0].from, Strokes(a)[0].to);
    assert Joins(Strokes(b)[3], Strokes(a)[1].from, Strokes(a)[1].to);
    assert Joins(Strokes(b)[0], Strokes(a)[2].from, Strokes(a)[2].to);
    assert Joins(Strokes(b)[1], Strokes(a)[3].from, Strokes(a)[3].to);
  }
}
