/** `draw_line`: Bresenham's line algorithm in a hybrid form,
    where the initial error is half the dominant delta (rounded toward zero,
    as Rust's `/` does) and the error is doubled before each comparison. */
module Bresenham {
  import opened Points
  import opened Canvas

  /** Rust's `v / 2` on a signed integer: the quotient is rounded toward zero. */
  function TruncHalf(v: int): (h: int)
    ensures 0 <= v ==> 0 <= v - 2 * h <= 1
    ensures v < 0 ==> -1 <= v - 2 * h <= 0
  {
    if v < 0 then -((-v) / 2) else v / 2
  }

  /** The step direction of `draw_line`: +1 toward a larger target, -1 otherwise
      (including when the two coordinates are equal). */
  function StepSign(from: int, to: int): (s: int)
    ensures s == 1 || s == -1
    ensures from < to <==> s == 1
  {
    if from < to then 1 else -1
  }

  /** The quantities `draw_line` fixes before its loop. */
  datatype Setup = Setup(x0: int, y0: int, x1: int, y1: int,
                         dx: int, dy: int, sx: int, sy: int, e0: int)
  {
    /** The facts about the set-up the loop relies on. */
    ghost predicate Valid()
    {
      dx >= 0 && dy >= 0 && (sx == 1 || sx == -1) && (sy == 1 || sy == -1) &&
      (if sx == 1 then x1 == x0 + dx else x1 == x0 - dx) &&
      (if sy == 1 then y1 == y0 + dy else y1 == y0 - dy) &&
      -dy <= 2 * e0 <= dx
    }

    /** How many x steps separate `x` from the start, counted toward `x1`. */
    function XSteps(x: int): int
    {
      if sx == 1 then x - x0 else x0 - x
    }

    function YSteps(y: int): int
    {
      if sy == 1 then y - y0 else y0 - y
    }

    /** The point `i` x steps and `j` y steps from the start, toward the end. */
    function At(i: int, j: int): Point
    {
      Point(Toward(x0, sx, i), Toward(y0, sy, j))
    }

    function Progress(p: Point): int
    {
      XSteps(p.x) + YSteps(p.y)
    }
  }

  /** The coordinate `k` unit steps from `a` in the direction `sgn`
      (+1 counts up, anything else counts down). */
  function Toward(a: int, sgn: int, k: int): int
  {
    if sgn == 1 then a + k else a - k
  }

  /** The absolute deltas, step signs and initial error of `draw_line`. */
  function SetupOf(x0: int, y0: int, x1: int, y1: int): (s: Setup)
    ensures s.Valid()
    ensures s.x0 == x0 && s.y0 == y0 && s.x1 == x1 && s.y1 == y1
    ensures s.dx == Abs(x1 - x0) && s.dy == Abs(y1 - y0)
    ensures s.sx == StepSign(x0, x1) && s.sy == StepSign(y0, y1)
    ensures s.e0 == TruncHalf(if s.dx > s.dy then s.dx else -s.dy)
  {
    var dx := if x0 > x1 then x0 - x1 else x1 - x0;
    var dy := if y0 > y1 then y0 - y1 else y1 - y0;
    var sx := if x0 < x1 then 1 else -1;
    var sy := if y0 < y1 then 1 else -1;
    Setup(x0, y0, x1, y1, dx, dy, sx, sy, TruncHalf(if dx > dy then dx else -dy))
  }

  /** The loop state: the current pixel and the error term. */
  datatype Cursor = Cursor(x: int, y: int, err: int)

  /** `k * n`, written as repeated addition so that the loop invariant below
      stays linear for the solver; `ScaleIsProduct` relates the two. */
  function Scale(k: int, n: nat): int
  {
    if n == 0 then 0 else Scale(k, n - 1) + k
  }

  lemma {:induction false} ScaleIsProduct(k: int, n: nat)
    ensures Scale(k, n) == k * n
  {
    if n > 0 {
      ScaleIsProduct(k, n - 1);
    }
  }

  /** The loop invariant: the cursor has taken a = XSteps x steps and
      b = YSteps y steps, neither past the endpoint, and the error term is
      e0 - dy*a + dx*b, recording exactly those steps. */
  ghost predicate Inv(s: Setup, c: Cursor)
  {
    s.Valid() &&
    0 <= s.XSteps(c.x) <= s.dx && 0 <= s.YSteps(c.y) <= s.dy &&
    c.err == s.e0 - Scale(s.dy, s.XSteps(c.x)) + Scale(s.dx, s.YSteps(c.y))
  }

  predicate AtEnd(s: Setup, c: Cursor)
  {
    c.x == s.x1 && c.y == s.y1
  }

  /** Steps still to take on both axes; the loop's termination measure. */
  function Remaining(s: Setup, c: Cursor): int
  {
    (s.dx - s.XSteps(c.x)) + (s.dy - s.YSteps(c.y))
  }

  /** `q` follows `p` in one loop iteration: x moves by 0 or sx, y by 0 or sy,
      and at least one of them moves. */
  predicate Moves(s: Setup, p: Point, q: Point)
  {
    (q.x == p.x || q.x == p.x + s.sx) && (q.y == p.y || q.y == p.y + s.sy) && p != q
  }

  lemma MulNonneg(a: int, b: int)
    requires a >= 0 && b >= 0
    ensures a * b >= 0
  {
  }

  /** After k steps of size m, fewer than m steps of size k fall short by at least k. */
  lemma ScaleGap(k: int, m: int, b: int)
    requires k >= 0 && 0 <= b < m
    ensures Scale(m, k) - Scale(k, b) >= k
  {
    ScaleIsProduct(m, k);
    ScaleIsProduct(k, b);
    MulNonneg(k, m - b - 1);
    assert k * (m - b - 1) == k * m - k * b - k;
    assert m * k == k * m;
  }

  /** No overshoot: once x has reached x1 the doubled error forbids another
      x step, and once y has reached y1 it forbids another y step. */
  lemma {:induction false} NoOvershoot(s: Setup, c: Cursor)
    requires Inv(s, c) && !AtEnd(s, c)
    ensures s.XSteps(c.x) == s.dx ==> 2 * c.err <= -s.dx
    ensures s.YSteps(c.y) == s.dy ==> 2 * c.err >= s.dy
  {
    var a := s.XSteps(c.x);
    var b := s.YSteps(c.y);
    if a == s.dx {
      ScaleGap(s.dx, s.dy, b);
    }
    if b == s.dy {
      ScaleGap(s.dy, s.dx, a);
    }
  }

  lemma AppendAssoc(a: seq<Point>, b: seq<Point>, c: seq<Point>)
    ensures (a + b) + c == a + (b + c)
  {
  }

  /** One iteration of the loop body after the end test failed: x steps when
      the doubled error exceeds -dx, y steps when it is below dy, both compared
      against the error before either update. The iteration keeps the
      invariant, moves to an 8-neighbour toward the endpoint and brings the
      loop strictly closer to its end. */
  function Step(s: Setup, c: Cursor): (r: Cursor)
    requires Inv(s, c) && !AtEnd(s, c)
    ensures Inv(s, r)
    ensures Moves(s, Point(c.x, c.y), Point(r.x, r.y))
    ensures Remaining(s, r) < Remaining(s, c)
  {
    NoOvershoot(s, c);
    var err2 := 2 * c.err;
    var after_x := if err2 > -s.dx then Cursor(c.x + s.sx, c.y, c.err - s.dy) else c;
    if err2 < s.dy then Cursor(after_x.x, c.y + s.sy, after_x.err + s.dx) else after_x
  }

  /** The pixels the loop writes from cursor `c` on, `c`'s own pixel first.
      This is the loop of `draw_line` unrolled as a recursion. */
  function Trace(s: Setup, c: Cursor): (ps: seq<Point>)
    requires Inv(s, c)
    ensures |ps| >= 1 && ps[0] == Point(c.x, c.y)
    decreases Remaining(s, c)
  {
    if AtEnd(s, c) then [Point(c.x, c.y)]
    else
      [Point(c.x, c.y)] + Trace(s, Step(s, c))
  }

  /** The endpoint is written last, and only last. */
  lemma {:induction false} TraceEnds(s: Setup, c: Cursor)
    requires Inv(s, c)
    ensures Trace(s, c)[|Trace(s, c)| - 1] == Point(s.x1, s.y1)
    ensures forall i :: 0 <= i < |Trace(s, c)| - 1 ==> Trace(s, c)[i] != Point(s.x1, s.y1)
    decreases Remaining(s, c)
  {
    if !AtEnd(s, c) {
      var rest := Trace(s, Step(s, c));
      TraceEnds(s, Step(s, c));
      assert Trace(s, c) == [Point(c.x, c.y)] + rest;
    }
  }

  /** Consecutive pixels are one loop iteration apart. */
  lemma {:induction false} TraceMoves(s: Setup, c: Cursor)
    requires Inv(s, c)
    ensures forall i :: 0 <= i < |Trace(s, c)| - 1 ==>
              Moves(s, Trace(s, c)[i], Trace(s, c)[i + 1])
    decreases Remaining(s, c)
  {
    if !AtEnd(s, c) {
      var rest := Trace(s, Step(s, c));
      TraceMoves(s, Step(s, c));
      var ps := [Point(c.x, c.y)] + rest;
      assert Trace(s, c) == ps;
      forall i | 0 <= i < |ps| - 1
        ensures Moves(s, ps[i], ps[i + 1])
      {
        if i == 0 {
          assert ps[1] == rest[0] == Point(Step(s, c).x, Step(s, c).y);
        } else {
          assert ps[i] == rest[i - 1] && ps[i + 1] == rest[i];
        }
      }
    }
  }

  /** Every pixel lies between start and end on both axes, and the pixels
      are strictly further from the start, step by step. */
  lemma {:induction false} TraceProgress(s: Setup, c: Cursor)
    requires Inv(s, c)
    ensures forall i :: 0 <= i < |Trace(s, c)| ==>
              s.XSteps(c.x) <= s.XSteps(Trace(s, c)[i].x) <= s.dx &&
              s.YSteps(c.y) <= s.YSteps(Trace(s, c)[i].y) <= s.dy
    ensures forall i, j :: 0 <= i < j < |Trace(s, c)| ==>
              s.Progress(Trace(s, c)[i]) < s.Progress(Trace(s, c)[j])
    decreases Remaining(s, c)
  {
    if !AtEnd(s, c) {
      var n := Step(s, c);
      var rest := Trace(s, n);
      TraceProgress(s, n);
      var ps := [Point(c.x, c.y)] + rest;
      assert Trace(s, c) == ps;
      assert s.XSteps(c.x) <= s.XSteps(n.x) && s.YSteps(c.y) <= s.YSteps(n.y);
      assert s.Progress(Point(c.x, c.y)) < s.Progress(Point(n.x, n.y));
      forall i | 1 <= i < |ps|
        ensures s.XSteps(c.x) <= s.XSteps(ps[i].x) <= s.dx && s.YSteps(c.y) <= s.YSteps(ps[i].y) <= s.dy
        ensures s.Progress(ps[0]) < s.Progress(ps[i])
      {
        assert ps[i] == rest[i - 1];
        assert s.Progress(rest[0]) <= s.Progress(rest[i - 1]);
      }
      forall i, j | 0 <= i < j < |ps|
        ensures s.Progress(ps[i]) < s.Progress(ps[j])
      {
        if i > 0 {
          assert ps[i] == rest[i - 1] && ps[j] == rest[j - 1];
        }
      }
    }
  }

  /** The number of pixels still to write: at least one per step of the
      longer axis, at most one per step of either axis. */
  lemma {:induction false} TraceLength(s: Setup, c: Cursor)
    requires Inv(s, c)
    ensures Max(s.dx - s.XSteps(c.x), s.dy - s.YSteps(c.y)) + 1 <= |Trace(s, c)| <= Remaining(s, c) + 1
    decreases Remaining(s, c)
  {
    if !AtEnd(s, c) {
      TraceLength(s, Step(s, c));
    }
  }

  /** On a horizontal line only x moves, one step per pixel; on a vertical
      line only y moves, one step per pixel. */
  lemma {:induction false} TraceAxis(s: Setup, c: Cursor)
    requires Inv(s, c)
    ensures s.dy == 0 ==> forall i :: 0 <= i < |Trace(s, c)| ==>
              Trace(s, c)[i].y == c.y && s.XSteps(Trace(s, c)[i].x) == s.XSteps(c.x) + i
    ensures s.dx == 0 ==> forall i :: 0 <= i < |Trace(s, c)| ==>
              Trace(s, c)[i].x == c.x && s.YSteps(Trace(s, c)[i].y) == s.YSteps(c.y) + i
    decreases Remaining(s, c)
  {
    if !AtEnd(s, c) {
      var n := Step(s, c);
      var rest := Trace(s, n);
      TraceAxis(s, n);
      var ps := [Point(c.x, c.y)] + rest;
      assert Trace(s, c) == ps;
      if s.dy == 0 {
        assert n.y == c.y && s.XSteps(n.x) == s.XSteps(c.x) + 1;
        forall i | 1 <= i < |ps|
          ensures ps[i].y == c.y && s.XSteps(ps[i].x) == s.XSteps(c.x) + i
        {
          assert ps[i] == rest[i - 1];
        }
      }
      if s.dx == 0 {
        assert n.x == c.x && s.YSteps(n.y) == s.YSteps(c.y) + 1;
        forall i | 1 <= i < |ps|
          ensures ps[i].x == c.x && s.YSteps(ps[i].y) == s.YSteps(c.y) + i
        {
          assert ps[i] == rest[i - 1];
        }
      }
    }
  }

  /** The start cursor of `draw_line`: the first endpoint and the initial error. */
  function Start(x0: int, y0: int, x1: int, y1: int): (c: Cursor)
    ensures Inv(SetupOf(x0, y0, x1, y1), c)
    ensures c.x == x0 && c.y == y0
  {
    Cursor(x0, y0, SetupOf(x0, y0, x1, y1).e0)
  }

  /** The pixels `draw_line` writes for the segment (x0, y0) -> (x1, y1), in order. */
  function LinePixels(x0: int, y0: int, x1: int, y1: int): (ps: seq<Point>)
    ensures |ps| >= 1 && ps[0] == Point(x0, y0)
  {
    Trace(SetupOf(x0, y0, x1, y1), Start(x0, y0, x1, y1))
  }

  /** The endpoint is always the last pixel written and is written only
      once; equal endpoints give exactly one write. */
  lemma LineEnds(x0: int, y0: int, x1: int, y1: int)
    ensures var ps := LinePixels(x0, y0, x1, y1);
      ps[|ps| - 1] == Point(x1, y1) &&
      (forall i :: 0 <= i < |ps| - 1 ==> ps[i] != Point(x1, y1)) &&
      (|ps| == 1 <==> x0 == x1 && y0 == y1)
  {
    TraceEnds(SetupOf(x0, y0, x1, y1), Start(x0, y0, x1, y1));
  }

  /** Consecutive pixels are distinct 8-neighbours, each coordinate moving by
      0 or by its step sign. */
  lemma LineConnected(x0: int, y0: int, x1: int, y1: int)
    ensures var ps := LinePixels(x0, y0, x1, y1);
      forall i :: 0 <= i < |ps| - 1 ==>
        Neighbours(ps[i], ps[i + 1]) &&
        (ps[i + 1].x == ps[i].x || ps[i + 1].x == ps[i].x + StepSign(x0, x1)) &&
        (ps[i + 1].y == ps[i].y || ps[i + 1].y == ps[i].y + StepSign(y0, y1))
  {
    var s := SetupOf(x0, y0, x1, y1);
    TraceMoves(s, Start(x0, y0, x1, y1));
  }

  /** No pixel is written twice, and every pixel lies in the bounding box of
      the two endpoints (so neither coordinate overshoots). */
  lemma LineInBoxNoRepeat(x0: int, y0: int, x1: int, y1: int)
    ensures var ps := LinePixels(x0, y0, x1, y1);
      (forall i, j :: 0 <= i < j < |ps| ==> ps[i] != ps[j]) &&
      (forall i :: 0 <= i < |ps| ==> InBox(Point(x0, y0), Point(x1, y1), ps[i]))
  {
    var s := SetupOf(x0, y0, x1, y1);
    TraceProgress(s, Start(x0, y0, x1, y1));
  }

  /** The loop makes between max(dx, dy) and dx + dy moves. */
  lemma LineLength(x0: int, y0: int, x1: int, y1: int)
    ensures Max(Abs(x1 - x0), Abs(y1 - y0)) + 1 <= |LinePixels(x0, y0, x1, y1)|
    ensures |LinePixels(x0, y0, x1, y1)| <= Abs(x1 - x0) + Abs(y1 - y0) + 1
  {
    TraceLength(SetupOf(x0, y0, x1, y1), Start(x0, y0, x1, y1));
  }

  /** Axis-aligned segments are drawn in full, one pixel per unit of length,
      even though the step sign is -1 when the coordinates tie. */
  lemma LineAxisAligned(x0: int, y0: int, x1: int, y1: int)
    ensures var ps := LinePixels(x0, y0, x1, y1);
      (y0 == y1 ==> (|ps| == Abs(x1 - x0) + 1 &&
                     forall i :: 0 <= i < |ps| ==> ps[i].y == y0 && Abs(ps[i].x - x0) == i)) &&
      (x0 == x1 ==> (|ps| == Abs(y1 - y0) + 1 &&
                     forall i :: 0 <= i < |ps| ==> ps[i].x == x0 && Abs(ps[i].y - y0) == i))
  {
    var s := SetupOf(x0, y0, x1, y1);
    TraceAxis(s, Start(x0, y0, x1, y1));
    TraceLength(s, Start(x0, y0, x1, y1));
  }

  /** The loop of `draw_line`: each iteration writes the current pixel through
      the clipped write, stops right after writing the endpoint, and otherwise
      advances by one `Step`. */
  method DrawLine(img: Image, x0: int, y0: int, x1: int, y1: int, color: Color)
    returns (r: Image, written: seq<Point>)
    requires img.Valid()
    ensures written == LinePixels(x0, y0, x1, y1)
    ensures r == PlotAll(img, written, color)
  {
    var s := SetupOf(x0, y0, x1, y1);
    var c := Cursor(x0, y0, s.e0);
    r, written := img, [];
    while true
      invariant Inv(s, c)
      invariant written + Trace(s, c) == LinePixels(x0, y0, x1, y1)
      invariant r == PlotAll(img, written, color)
      decreases Remaining(s, c)
    {
      ghost var before := written;
      r := Display(r, c.x, c.y, color);
      written := written + [Point(c.x, c.y)];
      assert written[..|written| - 1] == before;
      if c.x == x1 && c.y == y1 {
        break;
      }
      AppendAssoc(before, [Point(c.x, c.y)], Trace(s, Step(s, c)));
      c := Step(s, c);
    }
  }

  /** On a 45-degree segment, a cursor on the diagonal carrying the initial
      error satisfies the invariant: its x and y steps cancel in the error. */
  lemma DiagonalInv(s: Setup, i: int)
    requires s.Valid() && s.dx == s.dy && 0 <= i <= s.dx
    ensures Inv(s, Cursor(s.At(i, i).x, s.At(i, i).y, s.e0))
  {
    var c := Cursor(s.At(i, i).x, s.At(i, i).y, s.e0);
    assert s.XSteps(c.x) == i && s.YSteps(c.y) == i;
  }

  /** On a 45-degree segment of odd length n, an iteration from the diagonal
      steps both coordinates and leaves the error where it was. */
  lemma OddDiagonalStep(s: Setup, n: int, i: int)
    requires s.Valid() && s.dx == n && s.dy == n && 2 * s.e0 == 1 - n
    requires 0 <= i < n
    ensures Inv(s, Cursor(s.At(i, i).x, s.At(i, i).y, s.e0))
    ensures Step(s, Cursor(s.At(i, i).x, s.At(i, i).y, s.e0))
         == Cursor(s.At(i + 1, i + 1).x, s.At(i + 1, i + 1).y, s.e0)
  {
    DiagonalInv(s, i);
  }

  /** The diagonal of m steps starting i steps along both axes. */
  function Diagonal(s: Setup, i: int, m: nat): (ps: seq<Point>)
    ensures |ps| == m + 1
    decreases m
  {
    if m == 0 then [s.At(i, i)] else [s.At(i, i)] + Diagonal(s, i + 1, m - 1)
  }

  /** The k-th diagonal pixel has taken k steps on both axes. */
  lemma {:induction false} DiagonalAt(s: Setup, i: int, m: nat, k: int)
    requires 0 <= k < m + 1
    ensures Diagonal(s, i, m)[k] == s.At(i + k, i + k)
    decreases m
  {
    if k >= 1 {
      DiagonalAt(s, i + 1, m - 1, k - 1);
      assert Diagonal(s, i, m)[k] == Diagonal(s, i + 1, m - 1)[k - 1];
    }
  }

  /** On a 45-degree segment of odd length n the error never changes: every
      iteration steps both coordinates. */
  lemma {:induction false} OddDiagonalTrace(s: Setup, n: int, i: int)
    requires s.Valid() && s.dx == n && s.dy == n && 2 * s.e0 == 1 - n
    requires 0 <= i <= n
    ensures Inv(s, Cursor(s.At(i, i).x, s.At(i, i).y, s.e0))
    ensures Trace(s, Cursor(s.At(i, i).x, s.At(i, i).y, s.e0)) == Diagonal(s, i, n - i)
    decreases n - i
  {
    var c := Cursor(s.At(i, i).x, s.At(i, i).y, s.e0);
    DiagonalInv(s, i);
    if i < n {
      OddDiagonalStep(s, n, i);
      OddDiagonalTrace(s, n, i + 1);
    } else {
      assert AtEnd(s, c);
    }
  }

  /** A 45-degree segment of odd length n, in any of the four diagonal
      directions, is drawn as the pure diagonal of n + 1 pixels. */
  lemma OddDiagonal(x0: int, y0: int, x1: int, y1: int)
    requires Abs(x1 - x0) == Abs(y1 - y0) && Abs(x1 - x0) % 2 == 1
    ensures LinePixels(x0, y0, x1, y1)
         == seq(Abs(x1 - x0) + 1, k => Point(Toward(x0, StepSign(x0, x1), k), Toward(y0, StepSign(y0, y1), k)))
  {
    var s := SetupOf(x0, y0, x1, y1);
    var n := s.dx;
    assert s.e0 == TruncHalf(-n);
    OddDiagonalTrace(s, n, 0);
    assert Start(x0, y0, x1, y1) == Cursor(s.At(0, 0).x, s.At(0, 0).y, s.e0);
    var along := Diagonal(s, 0, n);
    var want := seq(Abs(x1 - x0) + 1, k => Point(Toward(x0, StepSign(x0, x1), k), Toward(y0, StepSign(y0, y1), k)));
    forall k | 0 <= k < |want|
      ensures want[k] == along[k]
    {
      DiagonalAt(s, 0, n, k);
    }
    assert want == along;
  }

  /** One round on a 45-degree segment of even length n: a y step that lifts
      the error by n, then an x step that brings it back. */
  lemma EvenDiagonalRound(s: Setup, n: int, i: int)
    requires s.Valid() && s.dx == n && s.dy == n && 2 * s.e0 == -n
    requires 0 <= i < n
    requires Inv(s, Cursor(s.At(i, i).x, s.At(i, i).y, s.e0))
    ensures Inv(s, Cursor(s.At(i + 1, i + 1).x, s.At(i + 1, i + 1).y, s.e0))
    ensures Trace(s, Cursor(s.At(i, i).x, s.At(i, i).y, s.e0))
         == [s.At(i, i), s.At(i, i + 1)] + Trace(s, Cursor(s.At(i + 1, i + 1).x, s.At(i + 1, i + 1).y, s.e0))
  {
    var a := Cursor(s.At(i, i).x, s.At(i, i).y, s.e0);
    var b := Cursor(s.At(i, i + 1).x, s.At(i, i + 1).y, s.e0 + n);
    assert Step(s, a) == b;
    assert Step(s, b) == Cursor(s.At(i + 1, i + 1).x, s.At(i + 1, i + 1).y, s.e0);
  }

  /** The staircase of m rounds starting i steps along both axes: each round
      is a pixel on the diagonal and the one a y step beyond it. */
  function Staircase(s: Setup, i: int, m: nat): (ps: seq<Point>)
    ensures |ps| == 2 * m + 1
    decreases m
  {
    if m == 0 then [s.At(i, i)] else [s.At(i, i), s.At(i, i + 1)] + Staircase(s, i + 1, m - 1)
  }

  /** The k-th staircase pixel has taken k / 2 x steps and (k + 1) / 2 y steps. */
  lemma {:induction false} StaircaseAt(s: Setup, i: int, m: nat, k: int)
    requires 0 <= k < 2 * m + 1
    ensures Staircase(s, i, m)[k] == s.At(i + k / 2, i + (k + 1) / 2)
    decreases m
  {
    if k >= 2 {
      StaircaseAt(s, i + 1, m - 1, k - 2);
      assert Staircase(s, i, m)[k] == Staircase(s, i + 1, m - 1)[k - 2];
      assert k / 2 == 1 + (k - 2) / 2 && (k + 1) / 2 == 1 + (k - 1) / 2;
    }
  }

  /** On a 45-degree segment of even length n the doubled error sits exactly
      on the thresholds, so the iterations alternate between a y step and an
      x step. */
  lemma {:induction false} EvenDiagonalTrace(s: Setup, n: int, i: int)
    requires s.Valid() && s.dx == n && s.dy == n && 2 * s.e0 == -n
    requires 0 <= i <= n
    ensures Inv(s, Cursor(s.At(i, i).x, s.At(i, i).y, s.e0))
    ensures Trace(s, Cursor(s.At(i, i).x, s.At(i, i).y, s.e0))
         == Staircase(s, i, n - i)
    decreases n - i
  {
    var a := Cursor(s.At(i, i).x, s.At(i, i).y, s.e0);
    DiagonalInv(s, i);
    if i < n {
      EvenDiagonalRound(s, n, i);
      EvenDiagonalTrace(s, n, i + 1);
      assert Staircase(s, i, n - i) == [s.At(i, i), s.At(i, i + 1)] + Staircase(s, i + 1, n - (i + 1));
    } else {
      assert AtEnd(s, a);
    }
  }

  /** A 45-degree segment of even length n, in any of the four diagonal
      directions, is drawn as a staircase of 2n + 1 pixels whose first move
      is a y step: the most any segment of that size can have. */
  lemma EvenDiagonal(x0: int, y0: int, x1: int, y1: int)
    requires Abs(x1 - x0) == Abs(y1 - y0) && Abs(x1 - x0) % 2 == 0
    ensures LinePixels(x0, y0, x1, y1)
         == seq(2 * Abs(x1 - x0) + 1,
                k => Point(Toward(x0, StepSign(x0, x1), k / 2), Toward(y0, StepSign(y0, y1), (k + 1) / 2)))
  {
    var s := SetupOf(x0, y0, x1, y1);
    var n := s.dx;
    assert s.e0 == TruncHalf(-n);
    EvenDiagonalTrace(s, n, 0);
    assert Start(x0, y0, x1, y1) == Cursor(s.At(0, 0).x, s.At(0, 0).y, s.e0);
    var along := Staircase(s, 0, n);
    var want := seq(2 * Abs(x1 - x0) + 1,
                    k => Point(Toward(x0, StepSign(x0, x1), k / 2), Toward(y0, StepSign(y0, y1), (k + 1) / 2)));
    forall k | 0 <= k < |want|
      ensures want[k] == along[k]
    {
      StaircaseAt(s, 0, n, k);
    }
    assert want == along;
  }

  /** The even-diagonal staircase with both coordinates increasing. */
  lemma EvenDiagonalUp(x0: int, y0: int, n: nat)
    requires n % 2 == 0
    ensures LinePixels(x0, y0, x0 + n, y0 + n) == seq(2 * n + 1, k => Point(x0 + k / 2, y0 + (k + 1) / 2))
  {
    EvenDiagonal(x0, y0, x0 + n, y0 + n);
    var want := seq(2 * n + 1, k => Point(x0 + k / 2, y0 + (k + 1) / 2));
    var got := seq(2 * Abs(x0 + n - x0) + 1,
                   k => Point(Toward(x0, StepSign(x0, x0 + n), k / 2), Toward(y0, StepSign(y0, y0 + n), (k + 1) / 2)));
    forall k | 0 <= k < |want|
      ensures want[k] == got[k]
    {
    }
    assert want == got;
  }

  /** On an increasing even diagonal the first move is a y step and the
      second an x step, and 2n + 1 pixels are written in all. */
  lemma EvenDiagonalStart(x0: int, y0: int, n: nat)
    requires n > 0 && n % 2 == 0
    ensures var ps := LinePixels(x0, y0, x0 + n, y0 + n);
      |ps| == 2 * n + 1 && ps[1] == Point(x0, y0 + 1) && ps[2] == Point(x0 + 1, y0 + 1)
  {
    EvenDiagonalUp(x0, y0, n);
    var stairs := seq(2 * n + 1, k => Point(x0 + k / 2, y0 + (k + 1) / 2));
    assert stairs[1] == Point(x0, y0 + 1) && stairs[2] == Point(x0 + 1, y0 + 1);
  }

  /** The demo line (250, 250) -> (750, 750) spans 500 units each way and
      is written as a staircase of 1001 pixels, not the 501 of a diagonal. */
  lemma DemoLineStaircase()
    ensures |LinePixels(250, 250, 750, 750)| == 1001
  {
    EvenDiagonalStart(250, 250, 500);
  }

  /** The segment's bounding box lies wholly off the canvas. */
  predicate BoxOffCanvas(img: Image, a: Point, b: Point)
  {
    Max(a.x, b.x) < 0 || Min(a.x, b.x) >= img.width ||
    Max(a.y, b.y) < 0 || Min(a.y, b.y) >= img.height
  }

  /** Every pixel of a segment whose bounding box misses the canvas is off it. */
  lemma LineClipped(img: Image, a: Point, b: Point)
    requires BoxOffCanvas(img, a, b)
    ensures var ps := LinePixels(a.x, a.y, b.x, b.y);
      forall i :: 0 <= i < |ps| ==> !img.InBounds(ps[i])
  {
    var ps := LinePixels(a.x, a.y, b.x, b.y);
    LineInBoxNoRepeat(a.x, a.y, b.x, b.y);
    forall i | 0 <= i < |ps|
      ensures !img.InBounds(ps[i])
    {
      assert InBox(a, b, ps[i]);
    }
  }

  /** A segment whose bounding box misses the canvas leaves it unchanged. */
  lemma LineOffCanvas(img: Image, a: Point, b: Point, color: Color)
    requires img.Valid() && BoxOffCanvas(img, a, b)
    ensures PlotAll(img, LinePixels(a.x, a.y, b.x, b.y), color) == img
  {
    LineClipped(img, a, b);
    PlotAllOffCanvas(img, LinePixels(a.x, a.y, b.x, b.y), color);
  }
}
