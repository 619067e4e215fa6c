/**
 * The rasteriser: an RGB byte buffer of imgW x imgH pixels, three bytes per
 * pixel in row-major order, initialised to white; line segments are clipped
 * to the view box, mapped to pixel indices, clamped into the image and drawn
 * black with a square brush around every point of the integer line.
 */
module Renderer {
  import opened Geometry
  import opened Bresenham

  newtype byte = v: int | 0 <= v < 256

  datatype Option<T> = None | Some(value: T)

  /** The pixel lies inside the image. */
  predicate InImage(w: int, h: int, p: Pixel) {
    0 <= p.x < w && 0 <= p.y < h
  }

  /** Index of the red byte of pixel `p`; green and blue follow it. */
  function PixelBase(w: int, p: Pixel): int {
    (p.y * w + p.x) * 3
  }

  /** A buffer of the size the renderer allocates. */
  predicate Sized(buf: seq<byte>, w: int, h: int) {
    w >= 0 && h >= 0 && |buf| == w * h * 3
  }

  /** Byte `i` is one of the three channel bytes of pixel `p`, and `p` is inside the image. */
  predicate Covers(w: int, h: int, p: Pixel, i: int) {
    InImage(w, h, p) && PixelBase(w, p) <= i < PixelBase(w, p) + 3
  }

  /** Some point of `ps` covers byte `i`. */
  predicate CoveredBy(w: int, h: int, ps: seq<Pixel>, i: int) {
    exists k :: 0 <= k < |ps| && Covers(w, h, ps[k], i)
  }

  /** All three channel bytes of an in-image pixel lie inside the buffer. */
  lemma PixelInBuffer(w: int, h: int, p: Pixel)
    requires w >= 0 && h >= 0 && InImage(w, h, p)
    ensures 0 <= PixelBase(w, p) && PixelBase(w, p) + 2 < w * h * 3
  {
    MulNonNegative(p.y, w);
    RowFitsBelow(w, h, p.y);
  }

  lemma MulNonNegative(a: int, b: int)
    requires a >= 0 && b >= 0
    ensures a * b >= 0
  {
  }

  /** Rows 0 .. y of an image w pixels wide fit in the first h rows when y < h. */
  lemma RowFitsBelow(w: int, h: int, y: int)
    requires w >= 0 && 0 <= y < h
    ensures y * w + w <= w * h
  {
    MulNonNegative(h - y - 1, w);
    assert (h - y - 1) * w == h * w - y * w - w;
    assert w * h == h * w;
  }

  /** Two different in-image pixels own disjoint byte triples. */
  lemma CoversOnePixel(w: int, h: int, p: Pixel, q: Pixel, i: int)
    requires Covers(w, h, p, i) && Covers(w, h, q, i)
    ensures p == q
  {
    var a, b := p.y * w + p.x, q.y * w + q.x;
    assert a == b;
    RowMajor(p.y, p.x, w);
    RowMajor(q.y, q.x, w);
  }

  /** Row-major numbering: pixel (j, i) of a row n pixels wide is number i * n + j. */
  lemma RowMajor(i: int, j: int, n: int)
    requires 0 <= i && 0 <= j < n
    ensures (i * n + j) / n == i && (i * n + j) % n == j
  {
    var k := i * n + j;
    var q, r := k / n, k % n;
    assert (q - i) * n == j - r;
    FactorBelowDivisorIsZero(q - i, n);
  }

  /** A multiple of n strictly between -n and n is 0. */
  lemma FactorBelowDivisorIsZero(d: int, n: int)
    requires n > 0 && -n < d * n < n
    ensures d == 0
  {
    if d >= 1 {
      assert false;
    } else if d <= -1 {
      assert false;
    }
  }

  /**
   * Setting one point black: the three channel bytes of an in-image point
   * become 0, every other byte keeps its value, and a point outside the
   * image changes nothing.
   */
  function Plot(buf: seq<byte>, w: int, h: int, p: Pixel): (r: seq<byte>)
    requires Sized(buf, w, h)
    ensures Sized(r, w, h)
  {
    if InImage(w, h, p) then
      PixelInBuffer(w, h, p);
      var b := PixelBase(w, p);
      buf[b := 0][b + 1 := 0][b + 2 := 0]
    else
      buf
  }

  lemma PlotAt(buf: seq<byte>, w: int, h: int, p: Pixel, i: int)
    requires Sized(buf, w, h) && 0 <= i < |buf|
    ensures Plot(buf, w, h, p)[i] == if Covers(w, h, p, i) then 0 else buf[i]
  {
    if InImage(w, h, p) {
      PixelInBuffer(w, h, p);
    }
  }

  /** The buffer after plotting every point of `ps`: covered bytes are 0, all others unchanged. */
  function PlotAll(buf: seq<byte>, w: int, h: int, ps: seq<Pixel>): (r: seq<byte>)
    requires Sized(buf, w, h)
    ensures Sized(r, w, h)
  {
    seq(|buf|, i requires 0 <= i < |buf| => if CoveredBy(w, h, ps, i) then 0 else buf[i])
  }

  lemma PlotAllAt(buf: seq<byte>, w: int, h: int, ps: seq<Pixel>, i: int)
    requires Sized(buf, w, h) && 0 <= i < |buf|
    ensures PlotAll(buf, w, h, ps)[i] == if CoveredBy(w, h, ps, i) then 0 else buf[i]
  {
  }

  /** Plotting the points of `ps` one after the other, in order. */
  function PlotInOrder(buf: seq<byte>, w: int, h: int, ps: seq<Pixel>): (r: seq<byte>)
    requires Sized(buf, w, h)
    ensures Sized(r, w, h)
    decreases |ps|
  {
    if ps == [] then buf else PlotInOrder(Plot(buf, w, h, ps[0]), w, h, ps[1..])
  }

  /** A point is covered by `ps + qs` exactly when it is covered by `ps` or by `qs`. */
  lemma CoveredByAppend(w: int, h: int, ps: seq<Pixel>, qs: seq<Pixel>, i: int)
    ensures CoveredBy(w, h, ps + qs, i) <==> CoveredBy(w, h, ps, i) || CoveredBy(w, h, qs, i)
  {
    var all := ps + qs;
    if CoveredBy(w, h, all, i) {
      var k :| 0 <= k < |all| && Covers(w, h, all[k], i);
      if k >= |ps| {
        assert qs[k - |ps|] == all[k];
      }
    }
    if CoveredBy(w, h, ps, i) {
      var k :| 0 <= k < |ps| && Covers(w, h, ps[k], i);
      assert all[k] == ps[k];
    }
    if CoveredBy(w, h, qs, i) {
      var k :| 0 <= k < |qs| && Covers(w, h, qs[k], i);
      assert all[|ps| + k] == qs[k];
    }
  }

  /** Plotting `ps` and then `qs` is plotting `ps + qs`. */
  lemma PlotAllAppend(buf: seq<byte>, w: int, h: int, ps: seq<Pixel>, qs: seq<Pixel>)
    requires Sized(buf, w, h)
    ensures PlotAll(buf, w, h, ps + qs) == PlotAll(PlotAll(buf, w, h, ps), w, h, qs)
  {
    forall i | 0 <= i < |buf|
      ensures PlotAll(buf, w, h, ps + qs)[i] == PlotAll(PlotAll(buf, w, h, ps), w, h, qs)[i]
    {
      CoveredByAppend(w, h, ps, qs, i);
    }
  }

  /** Plotting one more point after `done` is one Plot on top of the buffer so far. */
  lemma PlotAllSnoc(buf: seq<byte>, w: int, h: int, done: seq<Pixel>, p: Pixel)
    requires Sized(buf, w, h)
    ensures PlotAll(buf, w, h, done + [p]) == Plot(PlotAll(buf, w, h, done), w, h, p)
  {
    forall i | 0 <= i < |buf|
      ensures PlotAll(buf, w, h, done + [p])[i] == Plot(PlotAll(buf, w, h, done), w, h, p)[i]
    {
      PlotAllAt(buf, w, h, done + [p], i);
      PlotAllAt(buf, w, h, done, i);
      PlotAt(PlotAll(buf, w, h, done), w, h, p, i);
      CoveredByAppend(w, h, done, [p], i);
      assert CoveredBy(w, h, [p], i) <==> Covers(w, h, p, i) by {
        if Covers(w, h, p, i) {
          assert p in [p];
        }
      }
    }
  }

  /** Plotting nothing leaves the buffer as it is. */
  lemma PlotAllNone(buf: seq<byte>, w: int, h: int)
    requires Sized(buf, w, h)
    ensures PlotAll(buf, w, h, []) == buf
  {
  }

  /**
   * Plotting the points one after the other gives the pointwise result: the
   * image drawn does not depend on the order in which points are plotted.
   */
  lemma {:induction false} PlotInOrderIsPlotAll(buf: seq<byte>, w: int, h: int, ps: seq<Pixel>)
    requires Sized(buf, w, h)
    ensures PlotInOrder(buf, w, h, ps) == PlotAll(buf, w, h, ps)
    decreases |ps|
  {
    if ps == [] {
      PlotAllNone(buf, w, h);
    } else {
      var p, rest := ps[0], ps[1..];
      PlotInOrderIsPlotAll(Plot(buf, w, h, p), w, h, rest);
      assert ps == [p] + rest;
      PlotAllNone(buf, w, h);
      PlotAllSnoc(buf, w, h, [], p);
      assert [] + [p] == [p];
      PlotAllAppend(buf, w, h, [p], rest);
    }
  }

  /** Every byte is 0 or 255. */
  predicate TwoTone(buf: seq<byte>) {
    forall i :: 0 <= i < |buf| ==> buf[i] == 0 || buf[i] == 255
  }

  /** Plotting keeps a two-tone buffer two-tone. */
  lemma PlotAllTwoTone(buf: seq<byte>, w: int, h: int, ps: seq<Pixel>)
    requires Sized(buf, w, h) && TwoTone(buf)
    ensures TwoTone(PlotAll(buf, w, h, ps))
  {
  }

  /** Sets the three channel bytes of pixel (x, y) to 0 when it is inside the image. */
  method PlotPixel(img: array<byte>, w: int, h: int, x: int, y: int)
    requires Sized(img[..], w, h)
    modifies img
    ensures img[..] == Plot(old(img[..]), w, h, Pixel(x, y))
  {
    if x >= 0 && x < w && y >= 0 && y < h {
      PixelInBuffer(w, h, Pixel(x, y));
      img[(y * w + x) * 3] := 0;
      img[(y * w + x) * 3 + 1] := 0;
      img[(y * w + x) * 3 + 2] := 0;
    }
  }

  /** Once the current point is handed over, the trace from the next state completes the line. */
  lemma TraceHandOver(l: Line, s: State, done: seq<Pixel>, all: seq<Pixel>)
    requires Tracking(l, s) && done + Trace(l, s) == all
    ensures AtEnd(l, s) ==> done + [Pixel(s.x, s.y)] == all
    ensures !AtEnd(l, s) ==>
              && Tracking(l, Step(l, s)) && Measure(l, Step(l, s)) < Measure(l, s)
              && (done + [Pixel(s.x, s.y)]) + Trace(l, Step(l, s)) == all
  {
    if !AtEnd(l, s) {
      StepAdvances(l, s);
      TraceUnfold(l, s);
      assert (done + [Pixel(s.x, s.y)]) + Trace(l, Step(l, s)) == done + Trace(l, s);
    }
  }

  /**
   * Bresenham's loop over an image buffer: the buffer ends up as plotting
   * every point of LinePoints(x1, y1, x2, y2) in order, so only the channel
   * bytes of in-image points on the line are set to 0 and nothing else changes.
   */
  method DrawLineHelper(img: array<byte>, w: int, h: int, x1: int, y1: int, x2: int, y2: int)
    requires Sized(img[..], w, h)
    modifies img
    ensures img[..] == PlotAll(old(img[..]), w, h, LinePoints(x1, y1, x2, y2))
  {
    var dx: int := Abs(x2 - x1);
    var dy: int := Abs(y2 - y1);
    var sx := if x1 < x2 then 1 else -1;
    var sy := if y1 < y2 then 1 else -1;
    var err: int := dx - dy;
    var x, y := x1, y1;
    ghost var start := img[..];
    ghost var all := LinePoints(x1, y1, x2, y2);
    ghost var l := Line(x2, y2, dx, dy, sx, sy);
    ghost var done: seq<Pixel> := [];
    StartTracking(x1, y1, x2, y2);
    while true
      invariant Tracking(l, State(x, y, err))
      invariant done + Trace(l, State(x, y, err)) == all
      invariant img[..] == PlotAll(start, w, h, done)
      decreases Measure(l, State(x, y, err))
    {
      ghost var cur := State(x, y, err);
      PlotPixel(img, w, h, x, y);
      PlotAllSnoc(start, w, h, done, Pixel(x, y));
      TraceHandOver(l, cur, done, all);
      done := done + [Pixel(x, y)];

      if x == x2 && y == y2 {
        break;
      }

      x, y, err := StepLoop(x, y, err, dx, dy, sx, sy, l);
    }
  }

  /** The update at the end of an iteration of Bresenham's loop: both tests read the doubled error taken first. */
  method StepLoop(x: int, y: int, err: int, dx: int, dy: int, sx: int, sy: int, ghost l: Line)
    returns (x': int, y': int, err': int)
    requires l.dx == dx && l.dy == dy && l.sx == sx && l.sy == sy
    ensures State(x', y', err') == Step(l, State(x, y, err))
  {
    x', y', err' := x, y, err;
    var err2 := err * 2;
    if err2 > -dy {
      err' := err' - dy;
      x' := x' + sx;
    }
    if err2 < dx {
      err' := err' + dx;
      y' := y' + sy;
    }
  }

  /** Half the brush side: the line width is first raised to at least 1. */
  function HalfWidth(lineWidth: int): (r: nat)
    ensures lineWidth >= 1 ==> 2 * r <= lineWidth < 2 * r + 2
    ensures lineWidth < 1 ==> r == 0
  {
    (if lineWidth < 1 then 1 else lineWidth) / 2
  }

  /** The integer line from (x1, y1) to (x2, y2) with both end points moved by (ox, oy). */
  function StrokePoints(x1: int, y1: int, x2: int, y2: int, ox: int, oy: int): seq<Pixel> {
    LinePoints(x1 + ox, y1 + oy, x2 + ox, y2 + oy)
  }

  /** A stroke is the unshifted line moved point by point. */
  lemma StrokeIsShiftedLine(x1: int, y1: int, x2: int, y2: int, ox: int, oy: int)
    ensures StrokePoints(x1, y1, x2, y2, ox, oy) == Shift(LinePoints(x1, y1, x2, y2), ox, oy)
  {
    LinePointsShift(x1, y1, x2, y2, ox, oy);
  }

  /** The stroke of the brush for offset (ox, oy). */
  function Strokes(x1: int, y1: int, x2: int, y2: int): (int, int) -> seq<Pixel> {
    (ox, oy) => StrokePoints(x1, y1, x2, y2, ox, oy)
  }

  /** The strokes drawn by the inner loop for offset_x = ox, with offset_y from -half up to oyEnd - 1. */
  function StrokeColumn(stroke: (int, int) -> seq<Pixel>, half: int, ox: int, oyEnd: int): seq<Pixel>
    decreases oyEnd + half
  {
    if oyEnd <= -half then [] else StrokeColumn(stroke, half, ox, oyEnd - 1) + stroke(ox, oyEnd - 1)
  }

  /** The strokes drawn by the outer loop for offset_x from -half up to oxEnd - 1. */
  function BrushUpTo(stroke: (int, int) -> seq<Pixel>, half: int, oxEnd: int): seq<Pixel>
    decreases oxEnd + half
  {
    if oxEnd <= -half then [] else BrushUpTo(stroke, half, oxEnd - 1) + StrokeColumn(stroke, half, oxEnd - 1, half + 1)
  }

  /** The points plotted by a line of brush half-width `half`, in drawing order. */
  function BrushPoints(x1: int, y1: int, x2: int, y2: int, half: int): seq<Pixel> {
    BrushUpTo(Strokes(x1, y1, x2, y2), half, half + 1)
  }

  /** A point of the stroke for (ox, oy) is a point of every column that has drawn it. */
  lemma {:induction false} StrokeInColumn(stroke: (int, int) -> seq<Pixel>, half: int, ox: int, oy: int, oyEnd: int, p: Pixel)
    requires -half <= oy < oyEnd && p in stroke(ox, oy)
    ensures p in StrokeColumn(stroke, half, ox, oyEnd)
    decreases oyEnd + half
  {
    var prev := StrokeColumn(stroke, half, ox, oyEnd - 1);
    assert StrokeColumn(stroke, half, ox, oyEnd) == prev + stroke(ox, oyEnd - 1);
    if oy < oyEnd - 1 {
      StrokeInColumn(stroke, half, ox, oy, oyEnd - 1, p);
      InLeft(p, prev, stroke(ox, oyEnd - 1));
    } else {
      InRight(p, prev, stroke(ox, oyEnd - 1));
    }
  }

  /** Every point of a column comes from one of its strokes. */
  lemma {:induction false} ColumnWitness(stroke: (int, int) -> seq<Pixel>, half: int, ox: int, oyEnd: int, p: Pixel)
    returns (oy: int)
    requires p in StrokeColumn(stroke, half, ox, oyEnd)
    ensures -half <= oy < oyEnd && p in stroke(ox, oy)
    decreases oyEnd + half
  {
    var prev := StrokeColumn(stroke, half, ox, oyEnd - 1);
    assert StrokeColumn(stroke, half, ox, oyEnd) == prev + stroke(ox, oyEnd - 1);
    if p in prev {
      oy := ColumnWitness(stroke, half, ox, oyEnd - 1, p);
    } else {
      oy := oyEnd - 1;
    }
  }

  /** A point of the stroke for (ox, oy) is a point of the brush once column ox is drawn. */
  lemma {:induction false} StrokeInBrush(stroke: (int, int) -> seq<Pixel>, half: int, ox: int, oy: int, oxEnd: int, p: Pixel)
    requires -half <= ox < oxEnd && -half <= oy <= half && p in stroke(ox, oy)
    ensures p in BrushUpTo(stroke, half, oxEnd)
    decreases oxEnd + half
  {
    var prev, col := BrushUpTo(stroke, half, oxEnd - 1), StrokeColumn(stroke, half, oxEnd - 1, half + 1);
    assert BrushUpTo(stroke, half, oxEnd) == prev + col;
    if ox < oxEnd - 1 {
      StrokeInBrush(stroke, half, ox, oy, oxEnd - 1, p);
      InLeft(p, prev, col);
    } else {
      StrokeInColumn(stroke, half, ox, oy, half + 1, p);
      InRight(p, prev, col);
    }
  }

  /** Every point of the brush comes from one of its strokes. */
  lemma {:induction false} BrushWitness(stroke: (int, int) -> seq<Pixel>, half: int, oxEnd: int, p: Pixel)
    returns (ox: int, oy: int)
    requires p in BrushUpTo(stroke, half, oxEnd)
    ensures -half <= ox < oxEnd && -half <= oy <= half && p in stroke(ox, oy)
    decreases oxEnd + half
  {
    var prev, col := BrushUpTo(stroke, half, oxEnd - 1), StrokeColumn(stroke, half, oxEnd - 1, half + 1);
    assert BrushUpTo(stroke, half, oxEnd) == prev + col;
    if p in prev {
      ox, oy := BrushWitness(stroke, half, oxEnd - 1, p);
    } else {
      ox := oxEnd - 1;
      oy := ColumnWitness(stroke, half, ox, half + 1, p);
    }
  }

  lemma InLeft(p: Pixel, a: seq<Pixel>, b: seq<Pixel>)
    requires p in a
    ensures p in a + b
  {
    var k :| 0 <= k < |a| && a[k] == p;
    assert (a + b)[k] == p;
  }

  lemma InRight(p: Pixel, a: seq<Pixel>, b: seq<Pixel>)
    requires p in b
    ensures p in a + b
  {
    var k :| 0 <= k < |b| && b[k] == p;
    assert (a + b)[|a| + k] == p;
  }

  /** The points of the brush so far are exactly those of its strokes. */
  lemma BrushUpToMembers(stroke: (int, int) -> seq<Pixel>, half: int, oxEnd: int, p: Pixel)
    ensures p in BrushUpTo(stroke, half, oxEnd)
            <==> exists ox, oy :: -half <= ox < oxEnd && -half <= oy <= half && p in stroke(ox, oy)
  {
    if p in BrushUpTo(stroke, half, oxEnd) {
      var ox, oy := BrushWitness(stroke, half, oxEnd, p);
    }
    if exists ox, oy :: -half <= ox < oxEnd && -half <= oy <= half && p in stroke(ox, oy) {
      var ox, oy :| -half <= ox < oxEnd && -half <= oy <= half && p in stroke(ox, oy);
      StrokeInBrush(stroke, half, ox, oy, oxEnd, p);
    }
  }

  /**
   * The square brush: a point is plotted exactly when it is a point of the
   * line moved by some offset (ox, oy) with both coordinates in [-half, half].
   */
  lemma BrushIsSquare(x1: int, y1: int, x2: int, y2: int, half: int, p: Pixel)
    ensures p in BrushPoints(x1, y1, x2, y2, half)
            <==> exists ox, oy :: -half <= ox <= half && -half <= oy <= half
                                && p in Shift(LinePoints(x1, y1, x2, y2), ox, oy)
  {
    var stroke := Strokes(x1, y1, x2, y2);
    BrushUpToMembers(stroke, half, half + 1, p);
    if p in BrushPoints(x1, y1, x2, y2, half) {
      var ox, oy :| -half <= ox <= half && -half <= oy <= half && p in stroke(ox, oy);
      StrokeIsShiftedLine(x1, y1, x2, y2, ox, oy);
    }
    if exists ox, oy :: -half <= ox <= half && -half <= oy <= half && p in Shift(LinePoints(x1, y1, x2, y2), ox, oy) {
      var ox, oy :| -half <= ox <= half && -half <= oy <= half && p in Shift(LinePoints(x1, y1, x2, y2), ox, oy);
      StrokeIsShiftedLine(x1, y1, x2, y2, ox, oy);
      assert p in stroke(ox, oy);
    }
  }

  /** Drawing the stroke for offset (ox, oy) extends the column of offset_x = ox by that stroke. */
  lemma ColumnStep(start: seq<byte>, pre: seq<byte>, post: seq<byte>, w: int, h: int,
                   stroke: (int, int) -> seq<Pixel>, half: int, ox: int, oy: int)
    requires Sized(start, w, h) && -half <= oy
    requires pre == PlotAll(start, w, h, StrokeColumn(stroke, half, ox, oy))
    requires post == PlotAll(pre, w, h, stroke(ox, oy))
    ensures post == PlotAll(start, w, h, StrokeColumn(stroke, half, ox, oy + 1))
  {
    PlotAllAppend(start, w, h, StrokeColumn(stroke, half, ox, oy), stroke(ox, oy));
  }

  /** A finished column of offset_x = ox extends the brush up to ox + 1. */
  lemma BrushStep(start: seq<byte>, pre: seq<byte>, post: seq<byte>, w: int, h: int,
                  stroke: (int, int) -> seq<Pixel>, half: int, ox: int)
    requires Sized(start, w, h) && -half <= ox
    requires pre == PlotAll(start, w, h, BrushUpTo(stroke, half, ox))
    requires post == PlotAll(pre, w, h, StrokeColumn(stroke, half, ox, half + 1))
    ensures post == PlotAll(start, w, h, BrushUpTo(stroke, half, ox + 1))
  {
    PlotAllAppend(start, w, h, BrushUpTo(stroke, half, ox), StrokeColumn(stroke, half, ox, half + 1));
  }

  /**
   * The inner loop of the thick line for offset_x = ox: one Bresenham pass
   * for each offset_y from -half to half.
   */
  method DrawColumn(img: array<byte>, w: int, h: int, x1: int, y1: int, x2: int, y2: int, half: int, ox: int)
    requires Sized(img[..], w, h) && half >= 0
    modifies img
    ensures img[..] == PlotAll(old(img[..]), w, h, StrokeColumn(Strokes(x1, y1, x2, y2), half, ox, half + 1))
  {
    ghost var start := img[..];
    ghost var stroke := Strokes(x1, y1, x2, y2);
    var oy: int := -half;
    PlotAllNone(start, w, h);
    while oy <= half
      invariant -half <= oy <= half + 1
      invariant img[..] == PlotAll(start, w, h, StrokeColumn(stroke, half, ox, oy))
    {
      ghost var pre := img[..];
      DrawLineHelper(img, w, h, x1 + ox, y1 + oy, x2 + ox, y2 + oy);
      assert stroke(ox, oy) == LinePoints(x1 + ox, y1 + oy, x2 + ox, y2 + oy);
      ColumnStep(start, pre, img[..], w, h, stroke, half, ox, oy);
      oy := oy + 1;
    }
  }

  /**
   * A thick line: one Bresenham pass per offset (ox, oy) in the square
   * [-half, half]^2, with half = HalfWidth(lineWidth), both end points
   * moved by the offset; offset_x in the outer loop, offset_y in the inner.
   */
  method DrawLine(img: array<byte>, w: int, h: int, x1: int, y1: int, x2: int, y2: int, lineWidth: int)
    requires Sized(img[..], w, h)
    modifies img
    ensures img[..] == PlotAll(old(img[..]), w, h, BrushPoints(x1, y1, x2, y2, HalfWidth(lineWidth)))
  {
    var width := if lineWidth < 1 then 1 else lineWidth;
    var half := width / 2;
    ghost var start := img[..];
    ghost var stroke := Strokes(x1, y1, x2, y2);
    var ox: int := -half;
    PlotAllNone(start, w, h);
    while ox <= half
      invariant -half <= ox <= half + 1
      invariant img[..] == PlotAll(start, w, h, BrushUpTo(stroke, half, ox))
    {
      ghost var pre := img[..];
      DrawColumn(img, w, h, x1, y1, x2, y2, half, ox);
      BrushStep(start, pre, img[..], w, h, stroke, half, ox);
      ox := ox + 1;
    }
    assert half == HalfWidth(lineWidth) && ox == half + 1;
  }

  /** The point lies outside the view box [minV, maxV]^2. */
  predicate Outside(x: real, y: real, minV: real, maxV: real) {
    x < minV || x > maxV || y < minV || y > maxV
  }

  /**
   * The lower bound is applied first, then the upper one: a value below the
   * box becomes minV, one above it maxV, and on an empty box (maxV < minV)
   * the upper bound, applied last, wins.
   */
  function ClampCoord(v: real, minV: real, maxV: real): (r: real)
    ensures minV <= maxV ==> minV <= r <= maxV
    ensures minV <= v <= maxV ==> r == v
    ensures v < minV && minV <= maxV ==> r == minV
    ensures v > maxV ==> r == maxV
    ensures maxV < minV ==> r == maxV
  {
    var lower := if v < minV then minV else v;
    if lower > maxV then maxV else lower
  }

  /** An end point outside the view box has both coordinates clamped; one inside is kept. */
  function ClampPoint(x: real, y: real, minV: real, maxV: real): (r: (real, real))
    ensures minV <= maxV ==> !Outside(r.0, r.1, minV, maxV)
    ensures !Outside(x, y, minV, maxV) ==> r == (x, y)
    ensures Outside(x, y, minV, maxV) ==> r == (ClampCoord(x, minV, maxV), ClampCoord(y, minV, maxV))
    ensures minV <= x <= maxV ==> r.0 == x
    ensures minV <= y <= maxV ==> r.1 == y
  {
    if Outside(x, y, minV, maxV) then (ClampCoord(x, minV, maxV), ClampCoord(y, minV, maxV)) else (x, y)
  }

  /**
   * A segment with both end points outside the view box is skipped; otherwise
   * each outside end point is clamped into the box.
   */
  function ClipSegment(s: LineSegment, minV: real, maxV: real): (r: Option<LineSegment>)
    ensures r.None? <==> Outside(s.x1, s.y1, minV, maxV) && Outside(s.x2, s.y2, minV, maxV)
    ensures r.Some? && minV <= maxV ==>
              !Outside(r.value.x1, r.value.y1, minV, maxV) && !Outside(r.value.x2, r.value.y2, minV, maxV)
    ensures r.Some? && !Outside(s.x1, s.y1, minV, maxV) ==> r.value.x1 == s.x1 && r.value.y1 == s.y1
    ensures r.Some? && !Outside(s.x2, s.y2, minV, maxV) ==> r.value.x2 == s.x2 && r.value.y2 == s.y2
  {
    if Outside(s.x1, s.y1, minV, maxV) && Outside(s.x2, s.y2, minV, maxV) then None
    else
      var (x1, y1) := ClampPoint(s.x1, s.y1, minV, maxV);
      var (x2, y2) := ClampPoint(s.x2, s.y2, minV, maxV);
      Some(LineSegment(x1, y1, x2, y2))
  }

  /** A pixel index clamped into [0, n - 1]: inside an image of n >= 1 pixels, and unchanged when already inside. */
  function ClampPixel(v: int, n: int): (r: int)
    ensures n >= 1 ==> 0 <= r < n
    ensures 0 <= v < n ==> r == v
    ensures n >= 1 && v < 0 ==> r == 0
    ensures n >= 1 && v >= n ==> r == n - 1
    ensures n < 1 ==> r == 0
  {
    var upper := if n - 1 < v then n - 1 else v;
    if 0 < upper then upper else 0
  }

  /** The brush width the renderer passes to DrawLine. */
  const RenderLineWidth := 2

  /**
   * The points plotted for one segment. `toPixel(c, n)` stands for the
   * floating-point conversion of view coordinate `c` onto an axis of `n`
   * pixels.
   */
  function SegmentPoints(s: LineSegment, minV: real, maxV: real, w: int, h: int, toPixel: (real, int) -> int): seq<Pixel> {
    match ClipSegment(s, minV, maxV)
    case None => []
    case Some(c) =>
      BrushPoints(ClampPixel(toPixel(c.x1, w), w), ClampPixel(toPixel(c.y1, h), h),
                  ClampPixel(toPixel(c.x2, w), w), ClampPixel(toPixel(c.y2, h), h),
                  HalfWidth(RenderLineWidth))
  }

  /** The points plotted for all segments, in order. */
  function ImagePoints(lines: seq<LineSegment>, minV: real, maxV: real, w: int, h: int, toPixel: (real, int) -> int): seq<Pixel>
    decreases |lines|
  {
    if lines == [] then []
    else ImagePoints(lines[..|lines| - 1], minV, maxV, w, h, toPixel)
         + SegmentPoints(lines[|lines| - 1], minV, maxV, w, h, toPixel)
  }

  /** A segment is drawn as a 3 x 3 brush around each point of the line between its clamped pixel ends. */
  lemma SegmentEnds(s: LineSegment, minV: real, maxV: real, w: int, h: int, toPixel: (real, int) -> int)
    requires w >= 1 && h >= 1
    requires ClipSegment(s, minV, maxV).Some?
    ensures var c := ClipSegment(s, minV, maxV).value;
            var x1, y1 := ClampPixel(toPixel(c.x1, w), w), ClampPixel(toPixel(c.y1, h), h);
            var x2, y2 := ClampPixel(toPixel(c.x2, w), w), ClampPixel(toPixel(c.y2, h), h);
            && InImage(w, h, Pixel(x1, y1)) && InImage(w, h, Pixel(x2, y2))
            && HalfWidth(RenderLineWidth) == 1
            && SegmentPoints(s, minV, maxV, w, h, toPixel) == BrushPoints(x1, y1, x2, y2, 1)
  {
  }

  /** Drawing segment n on top of the image of segments 0 .. n - 1 gives the image of segments 0 .. n. */
  lemma SegmentStep(white: seq<byte>, pre: seq<byte>, post: seq<byte>, lines: seq<LineSegment>, n: int,
                    minV: real, maxV: real, w: int, h: int, toPixel: (real, int) -> int)
    requires Sized(white, w, h) && 0 <= n < |lines|
    requires pre == PlotAll(white, w, h, ImagePoints(lines[..n], minV, maxV, w, h, toPixel))
    requires post == PlotAll(pre, w, h, SegmentPoints(lines[n], minV, maxV, w, h, toPixel))
    ensures post == PlotAll(white, w, h, ImagePoints(lines[..n + 1], minV, maxV, w, h, toPixel))
  {
    var drawn := ImagePoints(lines[..n], minV, maxV, w, h, toPixel);
    var seg := SegmentPoints(lines[n], minV, maxV, w, h, toPixel);
    assert ImagePoints(lines[..n + 1], minV, maxV, w, h, toPixel) == drawn + seg by {
      assert lines[..n + 1][..n] == lines[..n] && lines[..n + 1][n] == lines[n];
    }
    PlotAllAppend(white, w, h, drawn, seg);
  }

  function White(n: nat): (r: seq<byte>)
    ensures |r| == n && TwoTone(r)
    ensures forall i :: 0 <= i < n ==> r[i] == 255
  {
    seq(n, _ => 255)
  }

  /**
   * The body of the renderer's loop for one segment: skip it when both end
   * points are outside the view box, otherwise clamp, convert and clamp
   * its end points and draw it with the renderer's line width.
   */
  method DrawSegment(img: array<byte>, line: LineSegment, minV: real, maxV: real, w: int, h: int,
                     toPixel: (real, int) -> int)
    requires Sized(img[..], w, h)
    modifies img
    ensures img[..] == PlotAll(old(img[..]), w, h, SegmentPoints(line, minV, maxV, w, h, toPixel))
  {
    var clipped := ClipSegment(line, minV, maxV);
    if clipped.Some? {
      var c := clipped.value;
      var x1 := ClampPixel(toPixel(c.x1, w), w);
      var y1 := ClampPixel(toPixel(c.y1, h), h);
      var x2 := ClampPixel(toPixel(c.x2, w), w);
      var y2 := ClampPixel(toPixel(c.y2, h), h);
      DrawLine(img, w, h, x1, y1, x2, y2, RenderLineWidth);
    } else {
      PlotAllNone(img[..], w, h);
    }
  }

  /** A fresh buffer of n bytes, every byte set to 255 one after the other. */
  method NewWhite(n: nat) returns (img: array<byte>)
    ensures fresh(img) && img[..] == White(n)
  {
    img := new byte[n];
    var i := 0;
    while i < n
      invariant 0 <= i <= n
      invariant forall k :: 0 <= k < i ==> img[k] == 255
    {
      img[i] := 255;
      i := i + 1;
    }
  }

  /**
   * Renders the segments into a fresh imgW x imgH RGB buffer: white
   * everywhere, then the points of every drawn segment plotted black, so
   * every byte ends 0 or 255.
   */
  method RenderToImage(lines: seq<LineSegment>, minV: real, maxV: real, w: int, h: int, toPixel: (real, int) -> int)
    returns (img: array<byte>)
    requires w >= 0 && h >= 0
    ensures fresh(img) && Sized(img[..], w, h)
    ensures img[..] == PlotAll(White(w * h * 3), w, h, ImagePoints(lines, minV, maxV, w, h, toPixel))
    ensures TwoTone(img[..])
  {
    MulNonNegative(w, h);
    MulNonNegative(w * h, 3);
    img := NewWhite(w * h * 3);
    var n := 0;
    ghost var white := img[..];
    PlotAllNone(white, w, h);
    while n < |lines|
      invariant 0 <= n <= |lines|
      invariant img[..] == PlotAll(white, w, h, ImagePoints(lines[..n], minV, maxV, w, h, toPixel))
    {
      ghost var pre := img[..];
      DrawSegment(img, lines[n], minV, maxV, w, h, toPixel);
      SegmentStep(white, pre, img[..], lines, n, minV, maxV, w, h, toPixel);
      n := n + 1;
    }
    assert lines[..n] == lines;
    PlotAllTwoTone(white, w, h, ImagePoints(lines, minV, maxV, w, h, toPixel));
  }
}
