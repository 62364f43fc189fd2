# Geometrical shapes on a pixel canvas — a Dafny model

The program draws points, lines, triangles, rectangles and circles into an
RGBA image. A point is a single pixel write. Lines, triangles and rectangles
are rasterised by one routine, `draw_line`, a hybrid form of Bresenham's line
algorithm. The circle samples its outline in floating point. `draw_line`, the
point and the shapes built on `draw_line`, the clipped pixel write of `Displayable for Image`, and
the value ranges of the random constructors are modelled here and proved
correct.

The project has four modules:

- `Points` (`points.dfy`): the integer `Point`, `Point::new`, and the range
  contract of `Point::random`.
- `Canvas` (`canvas.dfy`): 8-bit `Color`, and the `Image` as a map from every
  on-canvas position to a colour. `Display` is the clipped write: it stores a
  colour at an on-canvas position and drops a write anywhere else. `PlotAll`
  is a sequence of such writes.
- `Bresenham` (`bresenham.dfy`): `draw_line`. It has two forms:
  - the recursive reference `Trace`/`LinePixels`, which is the sequence of
    pixels the loop writes;
  - the loop itself, as the method `DrawLine`, proved to write exactly that
    sequence.

  The central fact is the error invariant
  `err == e0 - dy * xsteps + dx * ysteps`, together with `-dy <= 2 * e0 <= dx`.
  The second part holds only because Rust's `/` rounds toward zero (`TruncHalf`).
  From the invariant follow:
  - no overshoot;
  - termination;
  - the bounding box;
  - the pixel-count bounds.
- `Shapes` (`shapes.dfy`):
  - the closed variant type `Shape` (point, line, triangle, rectangle), with its constructors;
  - `Circle`'s constructors;
  - `Drawable::color`;
  - the list of drawing calls (`Strokes`) each `draw` makes;
  - `Render`, which performs those calls with one colour per call;
  - the `Draw*` methods, which take the colour of each `color()` call as input
    and are proved equal to `Render` of `Strokes`;
  - `Draw`, which draws those colours fresh.

Behaviour of `draw_line` that the proofs pin down:

- Odd 45° segments, in any of the four diagonal directions, are pure
  diagonals (`OddDiagonal`). For example, (0, 0) -> (5, 5) writes the 6
  pixels (k, k).
- Even 45° segments, in any of the four diagonal directions, are drawn as a
  staircase of 2n + 1 pixels whose first move is a y step (`EvenDiagonal`).
  The cause is that the doubled error `2 * err` starts exactly on the threshold
  `-dx`. The demo line (250, 250) -> (750, 750) therefore writes 1001 pixels,
  not 501 (`DemoLineStaircase`). The 2n + 1 count is the upper bound that
  `LineLength` gives for any segment.
- Axis-aligned segments are drawn in full, one pixel per unit. This holds even
  though the step sign is -1 when the two coordinates are equal.

`display` (src/main.rs) writes only inside its bounds check, so it is exactly
the clipped write `Display`. `draw_line` and `Point::draw` call the `raster`
crate's `set_pixel` directly and discard its `Result`. The `raster` crate is
not part of this model. The model assumes its `set_pixel` leaves the image
untouched for an off-canvas position and reports an error that is then
ignored. Under that assumption those calls are the same clipped write
`Display`. `Bresenham.LineOffCanvas` and `Shapes.ShapeOffCanvas` depend on the
assumption.

## Model

| member | source | states |
|---|---|---|
| Points.New | src/geometrical_shapes.rs:29-31 | the point carries exactly the given coordinates, unvalidated |
| Points.Random | src/geometrical_shapes.rs:32-38 | for a positive width and height, the point lies in 0 <= x < width and 0 <= y < height |
| Canvas.Display | src/main.rs:39-45 | an on-canvas write stores the colour at (x, y); no other pixel and neither dimension changes; an off-canvas write (negative, or at least the dimension) returns the image unchanged |
| Canvas.DisplayIdempotent | src/main.rs:41-42 | writing the same colour at the same place twice gives the same image as writing it once |
| Canvas.DisplayCommutes | src/main.rs:39-45 | writes to two different positions give the same image in either order |
| Canvas.PlotAll | src/geometrical_shapes.rs:179-186 | after a sequence of writes, every on-canvas pixel holds the colour if its position is in the sequence and is unchanged otherwise; the dimensions are kept |
| Canvas.PlotAllOffCanvas | src/main.rs:41-43 | a sequence of writes none of which is on the canvas leaves the image equal to the original |
| Bresenham.TruncHalf | src/geometrical_shapes.rs:176 | halving rounds toward zero: the remainder is in [0, 1] for non-negative values and in [-1, 0] for negative ones |
| Bresenham.StepSign | src/geometrical_shapes.rs:172-173 | the step is +1 exactly when the target is larger and -1 otherwise, including on a tie |
| Bresenham.SetupOf | src/geometrical_shapes.rs:168-176 | dx and dy are the absolute offsets, sx and sy point toward the target, and the initial error satisfies -dy <= 2 * e0 <= dx; the target is reached by dx steps of sx and dy steps of sy |
| Bresenham.Step | src/geometrical_shapes.rs:188-193 | an iteration that does not start at the endpoint keeps the error invariant, moves x by 0 or sx and y by 0 or sy, moves at least one of them, and strictly decreases the remaining distance, so the loop never overshoots and terminates |
| Bresenham.NoOvershoot | src/geometrical_shapes.rs:189-193 | under the error invariant, once x equals x1 the x test fails, and once y equals y1 the y test fails |
| Bresenham.Trace | src/geometrical_shapes.rs:179-194 | the loop from any reachable state writes at least one pixel, starting at the current position |
| Bresenham.TraceEnds | src/geometrical_shapes.rs:183-186 | the loop's last write is the endpoint, and no earlier write is |
| Bresenham.TraceMoves | src/geometrical_shapes.rs:189-193 | consecutive writes differ by one move of 0 or the step sign in each coordinate, and are never equal |
| Bresenham.TraceProgress | src/geometrical_shapes.rs:168-194 | the steps taken in each axis stay within 0..dx and 0..dy, and the total progress strictly increases along the writes |
| Bresenham.TraceLength | src/geometrical_shapes.rs:189-194 | the number of writes lies between max(remaining x steps, remaining y steps) + 1 and the remaining total steps + 1 |
| Bresenham.TraceAxis | src/geometrical_shapes.rs:172-193 | with dy = 0 only x moves, one step per write; with dx = 0 only y moves |
| Bresenham.Start | src/geometrical_shapes.rs:162-176 | the loop starts at (x0, y0) in a state satisfying the error invariant |
| Bresenham.LinePixels | src/geometrical_shapes.rs:162-195 | the first pixel written is (x0, y0) and at least one pixel is written |
| Bresenham.LineEnds | src/geometrical_shapes.rs:183-186 | the endpoint is the last pixel and appears nowhere earlier; exactly one pixel is written if and only if the endpoints are equal |
| Bresenham.LineConnected | src/geometrical_shapes.rs:172-193 | consecutive pixels are distinct 8-neighbours, each coordinate moving by 0 or by its step sign |
| Bresenham.LineInBoxNoRepeat | src/geometrical_shapes.rs:168-194 | no pixel is written twice, and every pixel lies in the bounding box of the two endpoints |
| Bresenham.LineLength | src/geometrical_shapes.rs:168-194 | the segment takes between max(dx, dy) + 1 and dx + dy + 1 writes |
| Bresenham.LineAxisAligned | src/geometrical_shapes.rs:172-193 | a horizontal segment writes dx + 1 pixels on its row, the i-th at distance i from x0; a vertical one writes dy + 1 pixels in its column in the same way |
| Bresenham.DrawLine | src/geometrical_shapes.rs:162-195 | the loop writes exactly the pixel sequence of the segment, in order, and the image becomes those clipped writes applied to the input image |
| Bresenham.DiagonalInv | src/geometrical_shapes.rs:176-193 | on a 45° segment, a cursor on the diagonal with the initial error satisfies the error invariant |
| Bresenham.OddDiagonalStep | src/geometrical_shapes.rs:188-193 | on a 45° segment of odd length, an iteration from the diagonal steps both coordinates and keeps the error unchanged |
| Bresenham.DiagonalAt | src/geometrical_shapes.rs:189-193 | the k-th pixel of the walk that steps both coordinates each time has taken k steps on each axis |
| Bresenham.OddDiagonalTrace | src/geometrical_shapes.rs:176-193 | on a 45° segment of odd length the error never changes, and from step i on the writes are the remaining diagonal pixels |
| Bresenham.OddDiagonal | src/geometrical_shapes.rs:162-195 | a 45° segment of odd length n, in any diagonal direction, writes the n + 1 diagonal pixels, the k-th k steps from (x0, y0) along both step signs |
| Bresenham.EvenDiagonalRound | src/geometrical_shapes.rs:189-193 | on a 45° segment of even length, an iteration from the diagonal takes one y step toward y1, and the next takes one x step toward x1, back onto the diagonal with the original error |
| Bresenham.StaircaseAt | src/geometrical_shapes.rs:189-193 | the k-th pixel of the alternating y-then-x walk has taken k/2 x steps and (k+1)/2 y steps |
| Bresenham.EvenDiagonalTrace | src/geometrical_shapes.rs:176-193 | on a 45° segment of even length, from step i on the writes alternate between a y move and an x move |
| Bresenham.EvenDiagonal | src/geometrical_shapes.rs:162-195 | a 45° segment of even length n, in any diagonal direction, writes the 2n + 1 staircase pixels, the k-th k/2 x steps and (k+1)/2 y steps from (x0, y0) |
| Bresenham.EvenDiagonalUp | src/geometrical_shapes.rs:162-195 | with both coordinates increasing, the staircase is (x0 + k/2, y0 + (k+1)/2) |
| Bresenham.EvenDiagonalStart | src/geometrical_shapes.rs:189-193 | on an increasing even diagonal the first move is one y step toward y1 and the second one x step toward x1 |
| Bresenham.DemoLineStaircase | src/main.rs:13 | the demo line (250, 250) -> (750, 750) writes 1001 pixels, not the 501 of a pure diagonal |
| Bresenham.LineClipped | src/geometrical_shapes.rs:183 | if the segment's bounding box is off the canvas, every pixel the segment writes is off the canvas |
| Bresenham.LineOffCanvas | src/main.rs:41-43 | a segment whose bounding box lies wholly off the canvas leaves the image unchanged |
| Shapes.NewLine | src/geometrical_shapes.rs:53-58 | the line keeps both given points unchanged and in order |
| Shapes.NewTriangle | src/geometrical_shapes.rs:80-86 | the triangle keeps its three given points unchanged and in order |
| Shapes.NewRectangle | src/geometrical_shapes.rs:105-114 | the rectangle keeps both given corners, derives point_3 = (p1.x, p2.y) and point_4 = (p2.x, p1.y), and its four points are the corners of the box spanned by p1 and p2 |
| Shapes.NewCircle | src/geometrical_shapes.rs:132-134 | the circle keeps the given centre and radius |
| Shapes.RandomColor | src/geometrical_shapes.rs:9-16 | the colour's channels are each in 0..255 (by their type) and alpha is 255 |
| Shapes.RandomLine | src/geometrical_shapes.rs:59-64 | both endpoints lie inside the canvas |
| Shapes.RandomCircle | src/geometrical_shapes.rs:135-139 | the radius is between 5 and 20 inclusive and the centre lies inside the canvas |
| Shapes.Strokes | src/geometrical_shapes.rs:41-124 | a point draws one pixel and a line draws one segment point_1 -> point_2. A triangle's segments form the closed cycle 1-2-3. A rectangle's form the closed cycle 1-3-2-4, and when built by the constructor every edge is horizontal or vertical. Every stroke endpoint is one of the shape's points |
| Shapes.Render | src/geometrical_shapes.rs:89-94 | drawing a list of strokes keeps the dimensions. A pixel no stroke writes is unchanged, and a pixel some stroke writes ends in one of the strokes' colours |
| Shapes.FreshColors | src/geometrical_shapes.rs:91-93 | n successive colour draws give n colours, each fully opaque |
| Shapes.DrawPoint | src/geometrical_shapes.rs:41-45 | drawing a point is one write at the point in the given colour |
| Shapes.DrawLineShape | src/geometrical_shapes.rs:67-71 | drawing a line is one segment point_1 -> point_2 in the given colour |
| Shapes.RenderTriangle | src/geometrical_shapes.rs:89-95 | a triangle's stroke list draws the segments 1-2, 2-3 and 3-1, in that order, edge i in colour i |
| Shapes.DrawTriangle | src/geometrical_shapes.rs:89-95 | the three `draw_line` calls give the image of the triangle's stroke list |
| Shapes.RenderRectangle | src/geometrical_shapes.rs:117-124 | a rectangle's stroke list draws the segments 1-3, 2-3, 2-4 and 4-1, in that order, edge i in colour i |
| Shapes.DrawRectangle | src/geometrical_shapes.rs:117-124 | the four `draw_line` calls give the image of the rectangle's stroke list |
| Shapes.DrawWith | src/geometrical_shapes.rs:7-8 | drawing any shape with one given colour per drawing call gives the image of its stroke list |
| Shapes.RenderOpaque | src/geometrical_shapes.rs:9-16 | strokes drawn in opaque colours leave every pixel they touch opaque |
| Shapes.Draw | src/geometrical_shapes.rs:7-8 | drawing any shape keeps the image size and leaves every untouched pixel as it was, and every pixel a stroke touches ends fully opaque. The result is the shape's strokes drawn in order, each in its own opaque colour, so every edge of a polygon may differ in colour |
| Shapes.ShapeOffCanvas | src/main.rs:41-43 | a shape whose points all lie beyond one edge of the canvas leaves the image unchanged, whatever its colours |
| Shapes.ReversedCornersRectangle | src/main.rs:19 | the rectangle built from (150, 150) and (50, 50) derives the corners (150, 50) and (50, 150), and all its edges are axis-aligned |
| Shapes.RectangleCornerOrder | src/geometrical_shapes.rs:105-114 | swapping the two given corners yields the same four corners and the same four edges, up to direction |

## Left out

- `Circle::draw` (src/geometrical_shapes.rs:142-160) is not modelled. It works in `f32`: `cos`, `sin`, `PI`, and a loop over an angle in float steps. Only the circle's constructors are modelled.
- The random generator is not modelled. `Points.Random`, `Shapes.RandomColor`, `Shapes.RandomLine` and `Shapes.RandomCircle` may return any value in the source's range; no distribution is stated.
- Points.Random: `gen_range(0..image_height)` and `gen_range(0..image_width)` panic on an empty range, so a non-positive bound panics in the source (src/geometrical_shapes.rs:34-35). The model makes positive bounds a precondition and does not model the panic.
- Shapes.RandomLine: the same panic, reached through its two `Point::random` calls (src/geometrical_shapes.rs:61-62), is a precondition here.
- Shapes.RandomCircle: the same panic, reached through `Point::random` (src/geometrical_shapes.rs:138), is a precondition here.
- Shapes.RandomColor: the channel range is carried by the `Channel` type rather than stated in its `ensures`.
- The `raster` crate is not part of this model:
  - `Image::blank` and `raster::save` are file I/O.
  - `set_pixel`'s `Result` is not modelled. Its off-canvas behaviour is assumed to be a no-op, as in `Display`; it is not derived from the crate.
  - Reading a pixel back is the map lookup.
- The `main` demo sequence (src/main.rs:7-37) is not modelled as a program. Its line and rectangle appear as the concrete lemmas `Bresenham.DemoLineStaircase` and `Shapes.ReversedCornersRectangle`.
- The `i32` type of coordinates and of `2 * err` is modelled as unbounded `int`. Wrap-around or overflow panics for coordinates near the `i32` limits are not modelled.
- `Point`'s derived `Default`, `Debug` and `Clone` are not modelled. `Copy` and `PartialEq` are the value semantics of the datatype.
- Shapes.Render: its contract says which colours a covered pixel may hold, not which stroke wins. The exact result in order is stated by `Shapes.RenderTriangle` and `Shapes.RenderRectangle`.
- Shapes.Draw: the source interleaves each `color()` call with its `draw_line` call. The model draws all of a shape's colours first (`Shapes.FreshColors`) and then draws the strokes (`Shapes.DrawWith`). Since the colour draws are independent of the image, the result is the same.
