/**
 * One marching-squares cell: the 4-bit case index built from the signs of
 * the corner values, and the switch that turns a case into zero, one or two
 * line segments joining the cell's edges at their zero crossings.
 *
 * Corner naming follows the engine: A south-west, B south-east, C north-east,
 * D north-west. Edges run A->B (bottom), B->C (right), C->D (top) and D->A
 * (left); the crossing offset of each edge is measured from its first corner.
 */
module CaseTable {
  import opened Geometry

  /** Field values at the four corners of a cell. */
  datatype Corners = Corners(a: real, b: real, c: real, d: real)

  /** The cell's sides in world coordinates. */
  datatype Frame = Frame(xSw: real, xNe: real, ySw: real, yNe: real)

  /** Crossing offsets along the bottom, right, top and left edges, already scaled by the step DT. */
  datatype Offsets = Offsets(bottom: real, right: real, top: real, left: real)

  datatype Edge = Bottom | Right | Top | Left

  datatype Point = Point(x: real, y: real)

  // ---------------------------------------------------------------------------
  // Case index

  function Bit(p: bool): bv4 {
    if p then 1 else 0
  }

  /** The case index: bit 0 for A > 0, bit 1 for B > 0, bit 2 for C > 0, bit 3 for D > 0. */
  function CaseIndex(v: Corners): (k: int)
    ensures 0 <= k < 16
    ensures (k % 2 == 1) <==> v.a > 0.0
    ensures (k % 4 >= 2) <==> v.b > 0.0
    ensures (k % 8 >= 4) <==> v.c > 0.0
    ensures (k >= 8) <==> v.d > 0.0
  {
    ((Bit(v.d > 0.0) << 3) | (Bit(v.c > 0.0) << 2) | (Bit(v.b > 0.0) << 1) | Bit(v.a > 0.0)) as int
  }

  function Negate(v: Corners): Corners {
    Corners(-v.a, -v.b, -v.c, -v.d)
  }

  /** Flipping the sign of every (non-zero) corner value gives the complementary case. */
  lemma CaseIndexNegate(v: Corners)
    requires v.a != 0.0 && v.b != 0.0 && v.c != 0.0 && v.d != 0.0
    ensures CaseIndex(Negate(v)) == 15 - CaseIndex(v)
  {
    var k, k' := CaseIndex(v), CaseIndex(Negate(v));
  }

  // ---------------------------------------------------------------------------
  // Edges, their sign changes and their zero crossings

  /** The values at an edge's first and second corner. */
  function EdgeValues(v: Corners, e: Edge): (real, real) {
    match e
    case Bottom => (v.a, v.b)
    case Right => (v.b, v.c)
    case Top => (v.c, v.d)
    case Left => (v.d, v.a)
  }

  /** The positions of an edge's first and second corner. */
  function EdgeEnds(f: Frame, e: Edge): (Point, Point) {
    match e
    case Bottom => (Point(f.xSw, f.ySw), Point(f.xNe, f.ySw))
    case Right => (Point(f.xNe, f.ySw), Point(f.xNe, f.yNe))
    case Top => (Point(f.xNe, f.yNe), Point(f.xSw, f.yNe))
    case Left => (Point(f.xSw, f.yNe), Point(f.xSw, f.ySw))
  }

  /** The contour crosses edge `e`: exactly one of its corners is positive. */
  predicate SignChange(v: Corners, e: Edge) {
    (EdgeValues(v, e).0 > 0.0) != (EdgeValues(v, e).1 > 0.0)
  }

  /** The point of a sign-change edge where the linear interpolant of the corner values is zero. */
  function Crossing(f: Frame, v: Corners, e: Edge): (p: Point)
    requires SignChange(v, e)
  {
    PointAlong(EdgeEnds(f, e), Interp(EdgeValues(v, e).0, EdgeValues(v, e).1))
  }

  /** The point a fraction t of the way from the first to the second end. */
  function PointAlong(ends: (Point, Point), t: real): Point {
    Point(ends.0.x + t * (ends.1.x - ends.0.x), ends.0.y + t * (ends.1.y - ends.0.y))
  }

  /**
   * Scaled crossing offset of an edge from value p to value q. The engine
   * evaluates all four eagerly; where p == q it divides by zero, and that
   * value is never used (see CellLinesAreCrossings), so it is 0 here.
   */
  function EdgeOffset(p: real, q: real, dt: real): (r: real)
    ensures p != q ==> p * dt + r * (q - p) == 0.0
  {
    if p != q then
      var t := Interp(p, q);
      assert t * dt * (q - p) == (t * (q - p)) * dt;
      t * dt
    else 0.0
  }

  /** The four offsets of a cell, each computed from the two corner values of its own edge. */
  function OffsetsOf(v: Corners, dt: real): (r: Offsets)
    ensures forall e :: OffsetOf(r, e) == EdgeOffset(EdgeValues(v, e).0, EdgeValues(v, e).1, dt)
  {
    Offsets(EdgeOffset(v.a, v.b, dt), EdgeOffset(v.b, v.c, dt), EdgeOffset(v.c, v.d, dt), EdgeOffset(v.d, v.a, dt))
  }

  lemma EdgeOffsetNegate(p: real, q: real, dt: real)
    ensures EdgeOffset(-p, -q, dt) == EdgeOffset(p, q, dt)
  {
    if p != q { InterpNegate(p, q); }
  }

  /** Negating the field moves no crossing offset. */
  lemma OffsetsNegate(v: Corners, dt: real)
    ensures OffsetsOf(Negate(v), dt) == OffsetsOf(v, dt)
  {
    EdgeOffsetNegate(v.a, v.b, dt);
    EdgeOffsetNegate(v.b, v.c, dt);
    EdgeOffsetNegate(v.c, v.d, dt);
    EdgeOffsetNegate(v.d, v.a, dt);
  }

  // ---------------------------------------------------------------------------
  // The case switch

  /** The switch over the case index, as the engine writes it (case 10 included). */
  function CaseLines(k: int, f: Frame, o: Offsets): (r: seq<LineSegment>)
    ensures |r| <= CellCapacity
  {
    match k
    case 1 | 14 => [LineSegment(f.xSw, f.yNe - o.left, f.xSw + o.bottom, f.ySw)]
    case 2 | 13 => [LineSegment(f.xSw + o.bottom, f.ySw, f.xNe, f.ySw + o.right)]
    case 3 | 12 => [LineSegment(f.xSw, f.yNe - o.left, f.xNe, f.ySw + o.right)]
    case 4 | 11 => [LineSegment(f.xNe - o.top, f.yNe, f.xNe, f.ySw + o.right)]
    case 5 =>
      [LineSegment(f.xSw, f.yNe - o.left, f.xNe - o.top, f.yNe),
       LineSegment(f.xSw + o.bottom, f.ySw, f.xNe, f.ySw + o.right)]
    case 6 | 9 => [LineSegment(f.xSw + o.bottom, f.ySw, f.xNe - o.top, f.yNe)]
    case 7 | 8 => [LineSegment(f.xSw, f.yNe - o.left, f.xNe - o.top, f.yNe)]
    case 10 =>
      [LineSegment(f.xSw + o.bottom, f.yNe, f.xNe, f.ySw + o.right),
       LineSegment(f.xSw, f.yNe - o.left, f.xSw + o.bottom, f.ySw)]
    case _ => []
  }

  /**
   * The switch with case 10's first segment joining the top crossing to the
   * right crossing (the segment of case 4), as the saddle resolution of the
   * second segment requires.
   */
  function FixedCaseLines(k: int, f: Frame, o: Offsets): (r: seq<LineSegment>)
    ensures |r| <= CellCapacity
    ensures k != 10 ==> r == CaseLines(k, f, o)
  {
    if k == 10 then
      [LineSegment(f.xNe - o.top, f.yNe, f.xNe, f.ySw + o.right),
       LineSegment(f.xSw, f.yNe - o.left, f.xSw + o.bottom, f.ySw)]
    else
      CaseLines(k, f, o)
  }

  /** Cases 0 and 15 emit nothing, the saddles 5 and 10 two segments, every other case one. */
  lemma CaseLineCount(k: int, f: Frame, o: Offsets)
    requires 0 <= k < 16
    ensures |CaseLines(k, f, o)| == (if k == 0 || k == 15 then 0 else if k == 5 || k == 10 then 2 else 1)
    ensures |FixedCaseLines(k, f, o)| == |CaseLines(k, f, o)|
  {
  }

  /** Outside the saddles, a case and its complement emit the identical segment. */
  lemma ComplementCasesAgree(k: int, f: Frame, o: Offsets)
    requires 0 <= k < 16 && k != 5 && k != 10
    ensures CaseLines(k, f, o) == CaseLines(15 - k, f, o)
    ensures FixedCaseLines(k, f, o) == FixedCaseLines(15 - k, f, o)
  {
  }

  /** In the corrected table each saddle is the union of two single-corner cases. */
  lemma SaddlesCombineSingleCases(f: Frame, o: Offsets)
    ensures FixedCaseLines(5, f, o) == CaseLines(7, f, o) + CaseLines(2, f, o)
    ensures FixedCaseLines(10, f, o) == CaseLines(4, f, o) + CaseLines(1, f, o)
  {
  }

  // ---------------------------------------------------------------------------
  // A cell

  /** The segments of one cell as the engine writes them. */
  function CellLinesAsWritten(f: Frame, v: Corners, dt: real): (r: seq<LineSegment>)
    ensures |r| <= CellCapacity
  {
    CaseLines(CaseIndex(v), f, OffsetsOf(v, dt))
  }

  /**
   * The segments of one cell with case 10 corrected. The engine's loop runs
   * the switch as written; only the corrected specification traversal uses these.
   */
  function CellLines(f: Frame, v: Corners, dt: real): (r: seq<LineSegment>)
    ensures |r| <= CellCapacity
    ensures CaseIndex(v) != 10 ==> r == CellLinesAsWritten(f, v, dt)
  {
    FixedCaseLines(CaseIndex(v), f, OffsetsOf(v, dt))
  }

  /**
   * Outside the saddles, negating a field whose corners are all non-zero
   * leaves the cell's segments unchanged: the complementary case emits the
   * same segment and every crossing stays where it was.
   */
  lemma NegatedFieldSameLines(f: Frame, v: Corners, dt: real)
    requires v.a != 0.0 && v.b != 0.0 && v.c != 0.0 && v.d != 0.0
    requires CaseIndex(v) != 5 && CaseIndex(v) != 10
    ensures CellLines(f, Negate(v), dt) == CellLines(f, v, dt)
  {
    CaseIndexNegate(v);
    OffsetsNegate(v, dt);
    ComplementCasesAgree(CaseIndex(v), f, OffsetsOf(v, dt));
  }

  predicate OnBoundary(f: Frame, x: real, y: real) {
    x == f.xSw || x == f.xNe || y == f.ySw || y == f.yNe
  }

  predicate InBox(f: Frame, x: real, y: real) {
    f.xSw <= x <= f.xNe && f.ySw <= y <= f.yNe
  }

  /** Every endpoint the engine emits, case 10's quirky one included, lies on a side line of the cell. */
  lemma EndpointsOnBoundary(f: Frame, v: Corners, dt: real)
    ensures forall s <- CellLinesAsWritten(f, v, dt) :: OnBoundary(f, s.x1, s.y1) && OnBoundary(f, s.x2, s.y2)
    ensures forall s <- CellLines(f, v, dt) :: OnBoundary(f, s.x1, s.y1) && OnBoundary(f, s.x2, s.y2)
  {
  }

  /** A crossing offset of a sign-change edge lies between 0 and the step. */
  lemma EdgeOffsetBounds(p: real, q: real, dt: real)
    requires (p > 0.0) != (q > 0.0) && dt >= 0.0
    ensures 0.0 <= EdgeOffset(p, q, dt) <= dt
  {
    var t := Interp(p, q);
    assert 0.0 <= t <= 1.0;
    assert t * dt <= 1.0 * dt;
  }

  /** In a square cell of side dt, every emitted endpoint lies within the cell. */
  lemma EndpointsInCell(f: Frame, v: Corners, dt: real)
    requires dt >= 0.0 && f.xNe - f.xSw == dt && f.yNe - f.ySw == dt
    ensures forall s <- CellLinesAsWritten(f, v, dt) :: InBox(f, s.x1, s.y1) && InBox(f, s.x2, s.y2)
    ensures forall s <- CellLines(f, v, dt) :: InBox(f, s.x1, s.y1) && InBox(f, s.x2, s.y2)
  {
    var k, o := CaseIndex(v), OffsetsOf(v, dt);
    if SignChange(v, Bottom) { EdgeOffsetBounds(v.a, v.b, dt); }
    if SignChange(v, Right) { EdgeOffsetBounds(v.b, v.c, dt); }
    if SignChange(v, Top) { EdgeOffsetBounds(v.c, v.d, dt); }
    if SignChange(v, Left) { EdgeOffsetBounds(v.d, v.a, dt); }
  }

  // ---------------------------------------------------------------------------
  // Which edges the segments join

  /**
   * The corrected switch with each endpoint labelled by the edge it lies on:
   * segment i of FixedCaseLines(k, ...) joins EdgePairs(k)[i].0 to EdgePairs(k)[i].1.
   */
  function EdgePairs(k: int): seq<(Edge, Edge)> {
    match k
    case 1 | 14 => [(Left, Bottom)]
    case 2 | 13 => [(Bottom, Right)]
    case 3 | 12 => [(Left, Right)]
    case 4 | 11 => [(Top, Right)]
    case 5 => [(Left, Top), (Bottom, Right)]
    case 6 | 9 => [(Bottom, Top)]
    case 7 | 8 => [(Left, Top)]
    case 10 => [(Top, Right), (Left, Bottom)]
    case _ => []
  }

  /** How many endpoints of a list of labelled segments lie on edge `e`. */
  function Touches(pairs: seq<(Edge, Edge)>, e: Edge): nat {
    if pairs == [] then 0
    else (if pairs[0].0 == e then 1 else 0) + (if pairs[0].1 == e then 1 else 0) + Touches(pairs[1..], e)
  }

  /** Edge `e` joins corners whose bits in case index `k` differ. */
  predicate BitChange(k: int, e: Edge) {
    var bitA, bitB, bitC, bitD := k % 2 == 1, k % 4 >= 2, k % 8 >= 4, k >= 8;
    match e
    case Bottom => bitA != bitB
    case Right => bitB != bitC
    case Top => bitC != bitD
    case Left => bitD != bitA
  }

  /** Case by case, the labelled segments touch exactly the edges whose corner bits differ, each once. */
  lemma EdgePairsTouchBitChanges(k: int, e: Edge)
    requires 0 <= k < 16
    ensures Touches(EdgePairs(k), e) == if BitChange(k, e) then 1 else 0
  {
    TouchesAtMostTwo(EdgePairs(k), e);
  }

  /** How many endpoints of one labelled segment lie on edge `e`. */
  function TouchesPair(pair: (Edge, Edge), e: Edge): nat {
    (if pair.0 == e then 1 else 0) + (if pair.1 == e then 1 else 0)
  }

  /** The count for a list of at most two labelled segments, written out. */
  lemma TouchesAtMostTwo(pairs: seq<(Edge, Edge)>, e: Edge)
    requires |pairs| <= 2
    ensures Touches(pairs, e) == (if |pairs| >= 1 then TouchesPair(pairs[0], e) else 0)
                                 + (if |pairs| == 2 then TouchesPair(pairs[1], e) else 0)
  {
    if |pairs| >= 1 {
      assert |pairs[1..]| == |pairs| - 1;
      if |pairs| == 2 {
        assert pairs[1..][0] == pairs[1] && pairs[1..][1..] == [];
      } else {
        assert pairs[1..] == [];
      }
    }
  }

  /** The segments of a cell touch exactly its sign-change edges, each of them once. */
  lemma SignChangeEdgesTouchedOnce(v: Corners, e: Edge)
    ensures Touches(EdgePairs(CaseIndex(v)), e) == if SignChange(v, e) then 1 else 0
  {
    EdgePairsTouchBitChanges(CaseIndex(v), e);
  }

  lemma {:induction false} TouchesEndpoints(pairs: seq<(Edge, Edge)>, i: int)
    requires 0 <= i < |pairs|
    ensures Touches(pairs, pairs[i].0) >= 1 && Touches(pairs, pairs[i].1) >= 1
  {
    if i > 0 {
      TouchesEndpoints(pairs[1..], i - 1);
    }
  }

  /** Where the switch places the crossing of edge `e`, given the scaled offsets. */
  function OffsetPoint(f: Frame, o: Offsets, e: Edge): Point {
    match e
    case Bottom => Point(f.xSw + o.bottom, f.ySw)
    case Right => Point(f.xNe, f.ySw + o.right)
    case Top => Point(f.xNe - o.top, f.yNe)
    case Left => Point(f.xSw, f.yNe - o.left)
  }

  /** The point lies on the side line of edge `e`. */
  predicate OnSide(f: Frame, e: Edge, x: real, y: real) {
    match e
    case Bottom => y == f.ySw
    case Right => x == f.xNe
    case Top => y == f.yNe
    case Left => x == f.xSw
  }

  /**
   * The switch as written, case 10 included, emits one segment per edge pair,
   * and each end point of segment i lies on the side line of the edge that
   * pair i names.
   */
  lemma CaseLinesOnSides(k: int, f: Frame, o: Offsets)
    ensures |CaseLines(k, f, o)| == |EdgePairs(k)|
    ensures forall i :: 0 <= i < |EdgePairs(k)| ==>
              var s := CaseLines(k, f, o)[i];
              OnSide(f, EdgePairs(k)[i].0, s.x1, s.y1) && OnSide(f, EdgePairs(k)[i].1, s.x2, s.y2)
  {
  }

  /** The corrected switch places each endpoint of segment i at the offset point of its labelled edge. */
  lemma FixedCaseLinesFollowEdgePairs(k: int, f: Frame, o: Offsets)
    ensures |FixedCaseLines(k, f, o)| == |EdgePairs(k)|
    ensures forall i :: 0 <= i < |EdgePairs(k)| ==>
              var s := FixedCaseLines(k, f, o)[i];
              Point(s.x1, s.y1) == OffsetPoint(f, o, EdgePairs(k)[i].0) &&
              Point(s.x2, s.y2) == OffsetPoint(f, o, EdgePairs(k)[i].1)
  {
  }

  /** The offset the switch uses for edge `e`. */
  function OffsetOf(o: Offsets, e: Edge): real {
    match e
    case Bottom => o.bottom
    case Right => o.right
    case Top => o.top
    case Left => o.left
  }

  /** On a sign-change edge the eagerly computed offset is the crossing fraction scaled by dt. */
  lemma OffsetIsScaledFraction(v: Corners, dt: real, e: Edge)
    requires SignChange(v, e)
    ensures OffsetOf(OffsetsOf(v, dt), e) == Interp(EdgeValues(v, e).0, EdgeValues(v, e).1) * dt
  {
    match e
    case Bottom => assert OffsetOf(OffsetsOf(v, dt), e) == EdgeOffset(v.a, v.b, dt);
    case Right => assert OffsetOf(OffsetsOf(v, dt), e) == EdgeOffset(v.b, v.c, dt);
    case Top => assert OffsetOf(OffsetsOf(v, dt), e) == EdgeOffset(v.c, v.d, dt);
    case Left => assert OffsetOf(OffsetsOf(v, dt), e) == EdgeOffset(v.d, v.a, dt);
  }

  /**
   * In a square cell of side dt, the offset t * dt of edge `e` puts the point
   * a fraction t of the way along that edge, from its first corner.
   */
  lemma OffsetAlongEdge(f: Frame, o: Offsets, e: Edge, t: real, dt: real)
    requires f.xNe - f.xSw == dt && f.yNe - f.ySw == dt
    requires OffsetOf(o, e) == t * dt
    ensures OffsetPoint(f, o, e) == PointAlong(EdgeEnds(f, e), t)
  {
    match e
    case Bottom => assert t * (f.ySw - f.ySw) == 0.0;
    case Right => assert t * (f.xNe - f.xNe) == 0.0;
    case Top =>
      assert t * (f.xSw - f.xNe) == -(t * dt);
      assert t * (f.yNe - f.yNe) == 0.0;
    case Left =>
      assert t * (f.xSw - f.xSw) == 0.0;
      assert t * (f.ySw - f.yNe) == -(t * dt);
  }

  /** In a square cell of side dt, the offset point of a sign-change edge is its zero crossing. */
  lemma OffsetPointIsCrossing(f: Frame, v: Corners, dt: real, e: Edge)
    requires f.xNe - f.xSw == dt && f.yNe - f.ySw == dt
    requires SignChange(v, e)
    ensures OffsetPoint(f, OffsetsOf(v, dt), e) == Crossing(f, v, e)
  {
    OffsetIsScaledFraction(v, dt, e);
    OffsetAlongEdge(f, OffsetsOf(v, dt), e, Interp(EdgeValues(v, e).0, EdgeValues(v, e).1), dt);
  }

  /**
   * In a square cell of side dt, the corrected segments are exactly the
   * segments between the zero crossings of the labelled edges, and those
   * edges all change sign.
   */
  lemma CellLinesAreCrossings(f: Frame, v: Corners, dt: real)
    requires f.xNe - f.xSw == dt && f.yNe - f.ySw == dt
    ensures |CellLines(f, v, dt)| == |EdgePairs(CaseIndex(v))|
    ensures forall i :: 0 <= i < |EdgePairs(CaseIndex(v))| ==>
              var (e0, e1) := EdgePairs(CaseIndex(v))[i];
              SignChange(v, e0) && SignChange(v, e1) &&
              var s := CellLines(f, v, dt)[i];
              Point(s.x1, s.y1) == Crossing(f, v, e0) && Point(s.x2, s.y2) == Crossing(f, v, e1)
  {
    var k, o := CaseIndex(v), OffsetsOf(v, dt);
    var pairs := EdgePairs(k);
    FixedCaseLinesFollowEdgePairs(k, f, o);
    forall i | 0 <= i < |pairs|
      ensures SignChange(v, pairs[i].0) && SignChange(v, pairs[i].1)
      ensures var s := CellLines(f, v, dt)[i];
              Point(s.x1, s.y1) == Crossing(f, v, pairs[i].0) && Point(s.x2, s.y2) == Crossing(f, v, pairs[i].1)
    {
      var (e0, e1) := pairs[i];
      TouchesEndpoints(pairs, i);
      SignChangeEdgesTouchedOnce(v, e0);
      SignChangeEdgesTouchedOnce(v, e1);
      OffsetPointIsCrossing(f, v, dt, e0);
      OffsetPointIsCrossing(f, v, dt, e1);
    }
  }

  /**
   * The engine's case 10 starts its first segment at a point on the top side
   * that is no zero crossing of the cell: with A = -1, B = 3, C = -1, D = 1 on
   * the unit cell it emits (0.25, 1), while the crossings are (0.25, 0),
   * (1, 0.75), (0.5, 1) and (0, 0.5).
   */
  lemma Case10FirstEndpointOffContour(f: Frame, v: Corners)
    requires f == Frame(0.0, 1.0, 0.0, 1.0) && v == Corners(-1.0, 3.0, -1.0, 1.0)
    ensures CaseIndex(v) == 10
    ensures SignChange(v, Bottom) && SignChange(v, Right) && SignChange(v, Top) && SignChange(v, Left)
    ensures var s := CellLinesAsWritten(f, v, 1.0)[0];
            Point(s.x1, s.y1) == Point(0.25, 1.0)
    ensures Crossing(f, v, Bottom) == Point(0.25, 0.0) && Crossing(f, v, Right) == Point(1.0, 0.75)
    ensures Crossing(f, v, Top) == Point(0.5, 1.0) && Crossing(f, v, Left) == Point(0.0, 0.5)
  {
    Case10Crossings(f, v);
    Case10Segment(f, v);
  }

  /** The first segment the engine emits for the example cell. */
  lemma Case10Segment(f: Frame, v: Corners)
    requires f == Frame(0.0, 1.0, 0.0, 1.0) && v == Corners(-1.0, 3.0, -1.0, 1.0)
    ensures CaseIndex(v) == 10
    ensures CellLinesAsWritten(f, v, 1.0)[0] == LineSegment(0.25, 1.0, 1.0, 0.75)
  {
    assert Interp(-1.0, 3.0) == 0.25;
    assert Interp(3.0, -1.0) == 0.75;
    assert OffsetsOf(v, 1.0).bottom == 0.25 && OffsetsOf(v, 1.0).right == 0.75;
  }

  /** The first segment of the example cell under the corrected switch: top crossing to right crossing. */
  lemma Case10CorrectedSegment(f: Frame, v: Corners)
    requires f == Frame(0.0, 1.0, 0.0, 1.0) && v == Corners(-1.0, 3.0, -1.0, 1.0)
    ensures CaseIndex(v) == 10
    ensures CellLines(f, v, 1.0)[0] == LineSegment(0.5, 1.0, 1.0, 0.75)
  {
    assert Interp(-1.0, 1.0) == 0.5;
    assert Interp(3.0, -1.0) == 0.75;
    assert OffsetsOf(v, 1.0).top == 0.5 && OffsetsOf(v, 1.0).right == 0.75;
  }

  /** The four zero crossings of the example cell. */
  lemma Case10Crossings(f: Frame, v: Corners)
    requires f == Frame(0.0, 1.0, 0.0, 1.0) && v == Corners(-1.0, 3.0, -1.0, 1.0)
    ensures SignChange(v, Bottom) && SignChange(v, Right) && SignChange(v, Top) && SignChange(v, Left)
    ensures Crossing(f, v, Bottom) == Point(0.25, 0.0) && Crossing(f, v, Right) == Point(1.0, 0.75)
    ensures Crossing(f, v, Top) == Point(0.5, 1.0) && Crossing(f, v, Left) == Point(0.0, 0.5)
  {
    CrossingAt(f, v, Bottom, 0.25, Point(0.25, 0.0));
    CrossingAt(f, v, Right, 0.75, Point(1.0, 0.75));
    CrossingAt(f, v, Top, 0.5, Point(0.5, 1.0));
    CrossingAt(f, v, Left, 0.5, Point(0.0, 0.5));
  }

  /** A crossing of the example cell, from its fraction along the edge. */
  lemma CrossingAt(f: Frame, v: Corners, e: Edge, t: real, p: Point)
    requires f == Frame(0.0, 1.0, 0.0, 1.0) && v == Corners(-1.0, 3.0, -1.0, 1.0)
    requires Interp(EdgeValues(v, e).0, EdgeValues(v, e).1) == t
    requires PointAlong(EdgeEnds(f, e), t) == p
    ensures SignChange(v, e) && Crossing(f, v, e) == p
  {
  }
}
