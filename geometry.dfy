/**
 * Geometry helpers shared by the marching-squares engine and the renderer:
 * the map from grid index to world coordinate, the linear zero-crossing
 * parameter of an edge, the line segment record and the per-cell output
 * record of the accelerator build. Coordinates are real numbers; the
 * double-precision rounding of the engine is not modelled.
 */
module Geometry {

  /** A line segment between (x1, y1) and (x2, y2). */
  datatype LineSegment = LineSegment(x1: real, y1: real, x2: real, y2: real)

  /**
   * World coordinate of grid index `v` when [minV, maxV] is divided into
   * `gridSize` equal steps.
   */
  function FromIndexSpace(v: int, minV: real, maxV: real, gridSize: int): (r: real)
    requires gridSize != 0
    ensures v == 0 ==> r == minV
    ensures v == gridSize ==> r == maxV
  {
    minV + (maxV - minV) * (v as real) / (gridSize as real)
  }

  /** Consecutive grid coordinates are one step (maxV - minV) / gridSize apart. */
  lemma FromIndexSpaceStep(v: int, minV: real, maxV: real, gridSize: int)
    requires gridSize != 0
    ensures FromIndexSpace(v + 1, minV, maxV, gridSize) - FromIndexSpace(v, minV, maxV, gridSize)
            == (maxV - minV) / (gridSize as real)
  {
    var n := gridSize as real;
    calc {
      FromIndexSpace(v + 1, minV, maxV, gridSize) - FromIndexSpace(v, minV, maxV, gridSize);
      (maxV - minV) * ((v + 1) as real) / n - (maxV - minV) * (v as real) / n;
      ((maxV - minV) * (v as real) + (maxV - minV)) / n - (maxV - minV) * (v as real) / n;
      (maxV - minV) / n;
    }
  }

  /** On an increasing range the grid coordinates increase strictly with the index. */
  lemma FromIndexSpaceStrictlyIncreasing(v: int, w: int, minV: real, maxV: real, gridSize: int)
    requires gridSize > 0 && minV < maxV
    requires v < w
    ensures FromIndexSpace(v, minV, maxV, gridSize) < FromIndexSpace(w, minV, maxV, gridSize)
  {
    var n := gridSize as real;
    var span := maxV - minV;
    var p, q := span * (v as real), span * (w as real);
    assert q - p == span * ((w - v) as real);
    assert p < q;
    assert (q / n - p / n) * n == q - p;
  }

  /**
   * Position, as a fraction of the edge, where the linear interpolant between
   * value `a` at one end and `b` at the other vanishes. Undefined when the two
   * values coincide (a division by zero in the engine).
   */
  function Interp(a: real, b: real): (r: real)
    requires b != a
    ensures a + r * (b - a) == 0.0
    ensures (a > 0.0) != (b > 0.0) ==> 0.0 <= r <= 1.0
  {
    (-a) / (b - a)
  }

  /** Measured from the other end, the crossing lies at the complementary fraction. */
  lemma InterpComplement(a: real, b: real)
    requires b != a
    ensures Interp(a, b) + Interp(b, a) == 1.0
  {
    var r, s := Interp(a, b), Interp(b, a);
    assert r * (b - a) == -a;
    assert s * (a - b) == -b;
    assert (r + s) * (b - a) == b - a;
  }

  /** Negating both values (the complementary field) leaves the crossing where it was. */
  lemma InterpNegate(a: real, b: real)
    requires b != a
    ensures Interp(-a, -b) == Interp(a, b)
  {
    var r, s := Interp(a, b), Interp(-a, -b);
    assert r * (b - a) == -a;
    assert s * (a - b) == a;
    assert (r - s) * (b - a) == 0.0;
  }

  /** Number of line slots of a cell output record. */
  const CellCapacity: nat := 2

  /**
   * Fixed-capacity output of one cell in the accelerator build: two line slots
   * and the number of them in use.
   */
  datatype CellOutput = CellOutput(lines: seq<LineSegment>, lineCount: int)
  {
    predicate Valid() {
      |lines| == CellCapacity && 0 <= lineCount <= CellCapacity
    }

    /** The segments actually held, in slot order. */
    function Used(): (r: seq<LineSegment>)
      requires Valid()
      ensures |r| == lineCount && r == lines[..lineCount]
    {
      lines[..lineCount]
    }
  }

  /** The slot filler of a default-constructed record: all coordinates zero. */
  const ZeroSegment := LineSegment(0.0, 0.0, 0.0, 0.0)

  /** A default-constructed cell output: two zero slots, none in use. */
  function DefaultCellOutput(): (r: CellOutput)
    ensures r.Valid() && r.lineCount == 0 && r.Used() == []
  {
    CellOutput([ZeroSegment, ZeroSegment], 0)
  }
}
