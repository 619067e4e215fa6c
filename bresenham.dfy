/**
 * The points visited by the renderer's integer line loop (Bresenham's
 * algorithm with the error term err = dx - dy): the loop state, one
 * iteration, and the whole sequence of points up to and including the end
 * point. The buffer writes themselves are in module Renderer.
 */
module Bresenham {

  datatype Pixel = Pixel(x: int, y: int)

  function Abs(v: int): nat {
    if v < 0 then -v else v
  }

  /** The constants of one run: end point, distances along each axis and step directions. */
  datatype Line = Line(x2: int, y2: int, dx: int, dy: int, sx: int, sy: int)

  /** The loop variables: the current point and the error term. */
  datatype State = State(x: int, y: int, err: int)

  function Setup(x1: int, y1: int, x2: int, y2: int): Line {
    Line(x2, y2, Abs(x2 - x1), Abs(y2 - y1), if x1 < x2 then 1 else -1, if y1 < y2 then 1 else -1)
  }

  function Start(x1: int, y1: int, x2: int, y2: int): State {
    State(x1, y1, Abs(x2 - x1) - Abs(y2 - y1))
  }

  /** Distance from `cur` to `target` measured in the direction of travel `step`. */
  function ToGo(cur: int, target: int, step: int): int {
    if step > 0 then target - cur else cur - target
  }

  /**
   * The loop invariant: the current point has not passed the end point on
   * either axis, and the error term records the progress made so far,
   * err = dx * (1 + stepsY) - dy * (1 + stepsX).
   */
  predicate Tracking(l: Line, s: State) {
    && l.dx >= 0 && l.dy >= 0
    && (l.sx == 1 || l.sx == -1) && (l.sy == 1 || l.sy == -1)
    && 0 <= ToGo(s.x, l.x2, l.sx) <= l.dx
    && 0 <= ToGo(s.y, l.y2, l.sy) <= l.dy
    && s.err == l.dx - l.dy - l.dx * ToGo(s.y, l.y2, l.sy) + l.dy * ToGo(s.x, l.x2, l.sx)
  }

  predicate AtEnd(l: Line, s: State) {
    s.x == l.x2 && s.y == l.y2
  }

  /** The decreasing measure: what is left to go on both axes. */
  function Measure(l: Line, s: State): int {
    ToGo(s.x, l.x2, l.sx) + ToGo(s.y, l.y2, l.sy)
  }

  /** One iteration after the end test: both tests read the doubled error taken before either update. */
  function Step(l: Line, s: State): (r: State)
    ensures r.x == s.x || r.x == s.x + l.sx
    ensures r.y == s.y || r.y == s.y + l.sy
  {
    var err2 := s.err * 2;
    var moveX, moveY := err2 > -l.dy, err2 < l.dx;
    State(if moveX then s.x + l.sx else s.x,
          if moveY then s.y + l.sy else s.y,
          s.err - (if moveX then l.dy else 0) + (if moveY then l.dx else 0))
  }

  /** Each axis moves by 0 or its step direction, and at least one of them moves. */
  predicate Advance(l: Line, p: Pixel, q: Pixel) {
    (q.x == p.x || q.x == p.x + l.sx) && (q.y == p.y || q.y == p.y + l.sy) && q != p
  }

  /** Points k and k + 1 of `ps` are one iteration apart. */
  predicate AdvancesAt(l: Line, ps: seq<Pixel>, k: int)
    requires 0 <= k < |ps| - 1
  {
    Advance(l, ps[k], ps[k + 1])
  }

  lemma MulAtLeast(a: int, b: int)
    requires a >= 0 && b >= 1
    ensures a * b >= a
  {
    assert a * b == a * (b - 1) + a;
  }

  lemma StartTracking(x1: int, y1: int, x2: int, y2: int)
    ensures Tracking(Setup(x1, y1, x2, y2), Start(x1, y1, x2, y2))
  {
    var l := Setup(x1, y1, x2, y2);
    assert ToGo(x1, x2, l.sx) == l.dx && ToGo(y1, y2, l.sy) == l.dy;
  }

  /**
   * From a tracked state that is not the end point, the x test only passes
   * while x still has ground to cover, likewise for y, and at least one of
   * the two tests passes.
   */
  lemma StepMoves(l: Line, s: State)
    requires Tracking(l, s) && !AtEnd(l, s)
    ensures s.err * 2 > -l.dy ==> ToGo(s.x, l.x2, l.sx) >= 1
    ensures s.err * 2 < l.dx ==> ToGo(s.y, l.y2, l.sy) >= 1
    ensures s.err * 2 > -l.dy || s.err * 2 < l.dx
  {
    var rx, ry := ToGo(s.x, l.x2, l.sx), ToGo(s.y, l.y2, l.sy);
    if ry >= 1 { MulAtLeast(l.dx, ry); }
    if rx >= 1 { MulAtLeast(l.dy, rx); }
  }

  /** The error-term bookkeeping of one iteration. */
  lemma ErrorUpdate(dx: int, dy: int, rx: int, ry: int, err: int, mx: bool, my: bool)
    requires err == dx - dy - dx * ry + dy * rx
    ensures err - (if mx then dy else 0) + (if my then dx else 0)
            == dx - dy - dx * (if my then ry - 1 else ry) + dy * (if mx then rx - 1 else rx)
  {
    assert dx * (ry - 1) == dx * ry - dx;
    assert dy * (rx - 1) == dy * rx - dy;
  }

  /**
   * From a tracked state that is not the end point, one iteration keeps the
   * invariant, moves to an 8-neighbour in the direction of travel and
   * strictly decreases the measure.
   */
  lemma StepAdvances(l: Line, s: State)
    requires Tracking(l, s) && !AtEnd(l, s)
    ensures Tracking(l, Step(l, s))
    ensures 0 <= Measure(l, Step(l, s)) < Measure(l, s)
    ensures Advance(l, Pixel(s.x, s.y), Pixel(Step(l, s).x, Step(l, s).y))
  {
    var rx, ry := ToGo(s.x, l.x2, l.sx), ToGo(s.y, l.y2, l.sy);
    var mx, my := s.err * 2 > -l.dy, s.err * 2 < l.dx;
    StepMoves(l, s);
    ErrorUpdate(l.dx, l.dy, rx, ry, s.err, mx, my);
    var t := Step(l, s);
    assert ToGo(t.x, l.x2, l.sx) == (if mx then rx - 1 else rx);
    assert ToGo(t.y, l.y2, l.sy) == (if my then ry - 1 else ry);
  }

  /** The points the loop considers for plotting from state `s` on, the end point included. */
  function Trace(l: Line, s: State): (r: seq<Pixel>)
    requires Tracking(l, s)
    ensures |r| >= 1 && r[0] == Pixel(s.x, s.y)
    decreases Measure(l, s)
  {
    if AtEnd(l, s) then
      [Pixel(s.x, s.y)]
    else
      StepAdvances(l, s);
      [Pixel(s.x, s.y)] + Trace(l, Step(l, s))
  }

  lemma TraceUnfold(l: Line, s: State)
    requires Tracking(l, s) && !AtEnd(l, s)
    ensures Tracking(l, Step(l, s))
    ensures Trace(l, s) == [Pixel(s.x, s.y)] + Trace(l, Step(l, s))
  {
    StepAdvances(l, s);
  }

  /**
   * The trace finishes at the end point and holds at least one point per
   * unit still to go on either axis and at most one per unit on both.
   */
  lemma {:induction false} TraceEndsAtTarget(l: Line, s: State)
    requires Tracking(l, s)
    ensures var r := Trace(l, s);
            && r[|r| - 1] == Pixel(l.x2, l.y2)
            && ToGo(s.x, l.x2, l.sx) + 1 <= |r| && ToGo(s.y, l.y2, l.sy) + 1 <= |r| <= Measure(l, s) + 1
    decreases Measure(l, s)
  {
    if !AtEnd(l, s) {
      StepAdvances(l, s);
      TraceUnfold(l, s);
      TraceEndsAtTarget(l, Step(l, s));
    }
  }

  /** Consecutive points of the trace are one iteration apart. */
  lemma {:induction false} TraceAdvances(l: Line, s: State)
    requires Tracking(l, s)
    ensures var r := Trace(l, s);
            forall k :: 0 <= k < |r| - 1 ==> AdvancesAt(l, r, k)
    decreases Measure(l, s)
  {
    if !AtEnd(l, s) {
      var t := Step(l, s);
      StepAdvances(l, s);
      TraceUnfold(l, s);
      TraceAdvances(l, t);
      var r, rest := Trace(l, s), Trace(l, t);
      forall k | 0 <= k < |r| - 1
        ensures AdvancesAt(l, r, k)
      {
        if k > 0 {
          assert AdvancesAt(l, rest, k - 1);
          assert r[k] == rest[k - 1] && r[k + 1] == rest[k];
        }
      }
    }
  }

  /** No point of the trace lies beyond the current point or past the end point on either axis. */
  lemma {:induction false} TraceBounded(l: Line, s: State)
    requires Tracking(l, s)
    ensures forall p <- Trace(l, s) :: 0 <= ToGo(p.x, l.x2, l.sx) <= ToGo(s.x, l.x2, l.sx)
                                    && 0 <= ToGo(p.y, l.y2, l.sy) <= ToGo(s.y, l.y2, l.sy)
    decreases Measure(l, s)
  {
    if !AtEnd(l, s) {
      var t := Step(l, s);
      StepAdvances(l, s);
      TraceUnfold(l, s);
      TraceBounded(l, t);
    }
  }

  predicate EightNeighbours(p: Pixel, q: Pixel) {
    p != q && Abs(p.x - q.x) <= 1 && Abs(p.y - q.y) <= 1
  }

  /** Points k and k + 1 of `ps` are 8-neighbours. */
  predicate NeighboursAt(ps: seq<Pixel>, k: int)
    requires 0 <= k < |ps| - 1
  {
    EightNeighbours(ps[k], ps[k + 1])
  }

  predicate Between(v: int, a: int, b: int) {
    (a <= v <= b) || (b <= v <= a)
  }

  /** The points plotted for a line from (x1, y1) to (x2, y2), both end points included. */
  function LinePoints(x1: int, y1: int, x2: int, y2: int): (r: seq<Pixel>)
    ensures |r| >= 1 && r[0] == Pixel(x1, y1)
  {
    StartTracking(x1, y1, x2, y2);
    Trace(Setup(x1, y1, x2, y2), Start(x1, y1, x2, y2))
  }

  /**
   * The loop terminates at the second end point, and there are between
   * max(dx, dy) + 1 and dx + dy + 1 points.
   */
  lemma LinePointsEnds(x1: int, y1: int, x2: int, y2: int)
    ensures var r := LinePoints(x1, y1, x2, y2);
            && r[|r| - 1] == Pixel(x2, y2)
            && Abs(x2 - x1) + 1 <= |r| && Abs(y2 - y1) + 1 <= |r| <= Abs(x2 - x1) + Abs(y2 - y1) + 1
  {
    var l, s := Setup(x1, y1, x2, y2), Start(x1, y1, x2, y2);
    StartTracking(x1, y1, x2, y2);
    TraceEndsAtTarget(l, s);
    assert ToGo(x1, x2, l.sx) == Abs(x2 - x1) && ToGo(y1, y2, l.sy) == Abs(y2 - y1);
  }

  /** Consecutive plotted points are 8-neighbours. */
  lemma LinePointsConnected(x1: int, y1: int, x2: int, y2: int)
    ensures var r := LinePoints(x1, y1, x2, y2);
            forall k :: 0 <= k < |r| - 1 ==> NeighboursAt(r, k)
  {
    var l, s := Setup(x1, y1, x2, y2), Start(x1, y1, x2, y2);
    StartTracking(x1, y1, x2, y2);
    TraceAdvances(l, s);
    var r := LinePoints(x1, y1, x2, y2);
    assert r == Trace(l, s);
    forall k | 0 <= k < |r| - 1
      ensures NeighboursAt(r, k)
    {
      assert AdvancesAt(l, r, k);
    }
  }

  /** Every plotted point lies in the box spanned by the two end points. */
  lemma LinePointsInBox(x1: int, y1: int, x2: int, y2: int)
    ensures forall p <- LinePoints(x1, y1, x2, y2) :: Between(p.x, x1, x2) && Between(p.y, y1, y2)
  {
    var l, s := Setup(x1, y1, x2, y2), Start(x1, y1, x2, y2);
    StartTracking(x1, y1, x2, y2);
    TraceBounded(l, s);
  }

  /** Every point moved by (ox, oy). */
  function Shift(ps: seq<Pixel>, ox: int, oy: int): (r: seq<Pixel>)
    ensures |r| == |ps|
    ensures forall k :: 0 <= k < |ps| ==> r[k] == Pixel(ps[k].x + ox, ps[k].y + oy)
  {
    if ps == [] then [] else [Pixel(ps[0].x + ox, ps[0].y + oy)] + Shift(ps[1..], ox, oy)
  }

  function ShiftLine(l: Line, ox: int, oy: int): Line {
    Line(l.x2 + ox, l.y2 + oy, l.dx, l.dy, l.sx, l.sy)
  }

  function ShiftState(s: State, ox: int, oy: int): State {
    State(s.x + ox, s.y + oy, s.err)
  }

  /** Translating the end point and the current point together changes neither the invariant nor one iteration. */
  lemma ShiftCommutes(l: Line, s: State, ox: int, oy: int)
    requires Tracking(l, s)
    ensures Tracking(ShiftLine(l, ox, oy), ShiftState(s, ox, oy))
    ensures AtEnd(ShiftLine(l, ox, oy), ShiftState(s, ox, oy)) == AtEnd(l, s)
    ensures Step(ShiftLine(l, ox, oy), ShiftState(s, ox, oy)) == ShiftState(Step(l, s), ox, oy)
  {
    var l', s' := ShiftLine(l, ox, oy), ShiftState(s, ox, oy);
    assert ToGo(s'.x, l'.x2, l'.sx) == ToGo(s.x, l.x2, l.sx);
    assert ToGo(s'.y, l'.y2, l'.sy) == ToGo(s.y, l.y2, l.sy);
  }

  lemma ShiftCons(p: Pixel, rest: seq<Pixel>, ox: int, oy: int)
    ensures Shift([p] + rest, ox, oy) == [Pixel(p.x + ox, p.y + oy)] + Shift(rest, ox, oy)
  {
    assert ([p] + rest)[1..] == rest;
  }

  lemma {:induction false} TraceShift(l: Line, s: State, ox: int, oy: int)
    requires Tracking(l, s)
    ensures Tracking(ShiftLine(l, ox, oy), ShiftState(s, ox, oy))
    ensures Trace(ShiftLine(l, ox, oy), ShiftState(s, ox, oy)) == Shift(Trace(l, s), ox, oy)
    decreases Measure(l, s)
  {
    var l', s' := ShiftLine(l, ox, oy), ShiftState(s, ox, oy);
    ShiftCommutes(l, s, ox, oy);
    if !AtEnd(l, s) {
      var t := Step(l, s);
      StepAdvances(l, s);
      TraceUnfold(l, s);
      TraceUnfold(l', s');
      TraceShift(l, t, ox, oy);
      assert Step(l', s') == ShiftState(t, ox, oy);
      ShiftPrepend(Trace(l, s), Trace(l', s'), Trace(l, t), Trace(l', Step(l', s')), Pixel(s.x, s.y), Pixel(s'.x, s'.y), ox, oy);
    }
  }

  /** A trace that starts with p, moved point by point, is the moved p followed by the moved rest. */
  lemma ShiftPrepend(a: seq<Pixel>, a': seq<Pixel>, rest: seq<Pixel>, rest': seq<Pixel>, p: Pixel, p': Pixel, ox: int, oy: int)
    requires a == [p] + rest && a' == [p'] + rest'
    requires p' == Pixel(p.x + ox, p.y + oy) && rest' == Shift(rest, ox, oy)
    ensures a' == Shift(a, ox, oy)
  {
    ShiftCons(p, rest, ox, oy);
  }

  /** Moving both end points by the same offset moves every plotted point by that offset. */
  lemma LinePointsShift(x1: int, y1: int, x2: int, y2: int, ox: int, oy: int)
    ensures LinePoints(x1 + ox, y1 + oy, x2 + ox, y2 + oy) == Shift(LinePoints(x1, y1, x2, y2), ox, oy)
  {
    var l, s := Setup(x1, y1, x2, y2), Start(x1, y1, x2, y2);
    StartTracking(x1, y1, x2, y2);
    assert Setup(x1 + ox, y1 + oy, x2 + ox, y2 + oy) == ShiftLine(l, ox, oy);
    assert Start(x1 + ox, y1 + oy, x2 + ox, y2 + oy) == ShiftState(s, ox, oy);
    TraceShift(l, s, ox, oy);
  }
}
