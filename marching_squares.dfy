/**
 * The marching-squares grid loop: the square [minV, maxV]^2 is cut into
 * gridSize x gridSize cells, the field is sampled at each cell's corners and
 * the cell's segments are collected. The engine runs the rows on several
 * threads, each appending to a private list that is merged into the result
 * in an unspecified thread order; here the loop runs sequentially and the
 * result is stated up to order, as a multiset.
 */
module MarchingSquares {
  import opened Geometry
  import opened CaseTable

  /** The field, the number of cells per side and the extent of the square. */
  datatype Grid = Grid(field: (real, real) -> real, size: int, minV: real, maxV: real)

  /**
   * Which case switch a cell uses: the engine's own, or the one with case
   * 10's first segment corrected.
   */
  datatype Table = AsWritten | Corrected

  function Abs(x: real): real {
    if x < 0.0 then -x else x
  }

  /** The step DT = |minV - maxV| / gridSize used to scale the crossing offsets. */
  function Dt(minV: real, maxV: real, gridSize: int): (dt: real)
    requires gridSize > 0
    ensures dt >= 0.0
    ensures minV <= maxV ==> dt == FromIndexSpace(1, minV, maxV, gridSize) - FromIndexSpace(0, minV, maxV, gridSize)
  {
    FromIndexSpaceStep(0, minV, maxV, gridSize);
    Abs(minV - maxV) / (gridSize as real)
  }

  /**
   * The cell in row i and column j: columns run along x, rows along y. The
   * first and last cells of a row or column reach the sides of the square.
   */
  function CellFrame(g: Grid, i: int, j: int): (r: Frame)
    requires g.size > 0
    ensures j == 0 ==> r.xSw == g.minV
    ensures i == 0 ==> r.ySw == g.minV
    ensures j + 1 == g.size ==> r.xNe == g.maxV
    ensures i + 1 == g.size ==> r.yNe == g.maxV
  {
    Frame(FromIndexSpace(j, g.minV, g.maxV, g.size), FromIndexSpace(j + 1, g.minV, g.maxV, g.size),
          FromIndexSpace(i, g.minV, g.maxV, g.size), FromIndexSpace(i + 1, g.minV, g.maxV, g.size))
  }

  /**
   * The field sampled at a cell's corners A (south-west), B, C, D: the two
   * values of every edge are the field at that edge's two end points.
   */
  function CellCorners(g: Grid, fr: Frame): (r: Corners)
    ensures forall e :: EdgeValues(r, e).0 == g.field(EdgeEnds(fr, e).0.x, EdgeEnds(fr, e).0.y)
    ensures forall e :: EdgeValues(r, e).1 == g.field(EdgeEnds(fr, e).1.x, EdgeEnds(fr, e).1.y)
  {
    Corners(g.field(fr.xSw, fr.ySw), g.field(fr.xNe, fr.ySw), g.field(fr.xNe, fr.yNe), g.field(fr.xSw, fr.yNe))
  }

  /** The segments of cell (i, j) under switch `t`. */
  function LinesOfCell(g: Grid, t: Table, i: int, j: int): (r: seq<LineSegment>)
    requires g.size > 0
    ensures |r| <= CellCapacity
  {
    var fr := CellFrame(g, i, j);
    var v, dt := CellCorners(g, fr), Dt(g.minV, g.maxV, g.size);
    if t == AsWritten then CellLinesAsWritten(fr, v, dt) else CellLines(fr, v, dt)
  }

  /** The two switches give a cell the same segments unless the cell is case 10. */
  lemma CellTablesAgree(g: Grid, i: int, j: int)
    requires g.size > 0 && CaseIndex(CellCorners(g, CellFrame(g, i, j))) != 10
    ensures LinesOfCell(g, AsWritten, i, j) == LinesOfCell(g, Corrected, i, j)
  {
  }

  /** The segments of cells (i, 0) .. (i, j - 1) of a grid whose cell (i, j) yields cells(i, j). */
  function RowLines(cells: (int, int) -> seq<LineSegment>, i: int, j: nat): seq<LineSegment> {
    if j == 0 then [] else RowLines(cells, i, j - 1) + cells(i, j - 1)
  }

  /** The segments of the complete rows 0 .. i - 1 of n cells each, row after row. */
  function GridRows(cells: (int, int) -> seq<LineSegment>, n: nat, i: nat): seq<LineSegment> {
    if i == 0 then [] else GridRows(cells, n, i - 1) + RowLines(cells, i - 1, n)
  }

  /** The cell function of a grid under switch `t`. */
  function CellsOf(g: Grid, t: Table): (int, int) -> seq<LineSegment>
    requires g.size > 0
  {
    (i, j) => LinesOfCell(g, t, i, j)
  }

  /** The segments of every cell of the grid, in row-major order: at most two per cell. */
  function GridLines(g: Grid, t: Table): (r: seq<LineSegment>)
    ensures |r| <= CellCapacity * (if g.size <= 0 then 0 else g.size * g.size)
  {
    if g.size <= 0 then []
    else
      GridRowsLength(CellsOf(g, t), g.size, g.size);
      GridRows(CellsOf(g, t), g.size, g.size)
  }

  /** A row holds at most two segments per cell. */
  lemma {:induction false} RowLinesLength(cells: (int, int) -> seq<LineSegment>, i: int, j: nat)
    requires forall i', j' :: |cells(i', j')| <= CellCapacity
    ensures |RowLines(cells, i, j)| <= CellCapacity * j
  {
    if j > 0 {
      RowLinesLength(cells, i, j - 1);
    }
  }

  /** Complete rows hold at most two segments per cell. */
  lemma {:induction false} GridRowsLength(cells: (int, int) -> seq<LineSegment>, n: nat, i: nat)
    requires forall i', j' :: |cells(i', j')| <= CellCapacity
    ensures |GridRows(cells, n, i)| <= CellCapacity * (i * n)
  {
    if i > 0 {
      GridRowsLength(cells, n, i - 1);
      RowLinesLength(cells, i - 1, n);
      assert (i - 1) * n + n == i * n;
    }
  }

  /** Two cell functions that agree on the first j cells of row i give the same row. */
  lemma {:induction false} RowLinesAgree(c1: (int, int) -> seq<LineSegment>, c2: (int, int) -> seq<LineSegment>, i: int, j: nat)
    requires forall j' :: 0 <= j' < j ==> c1(i, j') == c2(i, j')
    ensures RowLines(c1, i, j) == RowLines(c2, i, j)
  {
    if j > 0 {
      RowLinesAgree(c1, c2, i, j - 1);
    }
  }

  /** Two cell functions that agree on the first i rows of n cells give the same rows. */
  lemma {:induction false} GridRowsAgree(c1: (int, int) -> seq<LineSegment>, c2: (int, int) -> seq<LineSegment>, n: nat, i: nat)
    requires forall i', j' :: 0 <= i' < i && 0 <= j' < n ==> c1(i', j') == c2(i', j')
    ensures GridRows(c1, n, i) == GridRows(c2, n, i)
  {
    if i > 0 {
      GridRowsAgree(c1, c2, n, i - 1);
      RowLinesAgree(c1, c2, i - 1, n);
    }
  }

  /** A grid with no case-10 cell gives the same segments under both switches. */
  lemma GridTablesAgree(g: Grid)
    requires forall i, j :: 0 <= i < g.size && 0 <= j < g.size ==> CaseIndex(CellCorners(g, CellFrame(g, i, j))) != 10
    ensures GridLines(g, AsWritten) == GridLines(g, Corrected)
  {
    if g.size > 0 {
      forall i', j' | 0 <= i' < g.size && 0 <= j' < g.size
        ensures CellsOf(g, AsWritten)(i', j') == CellsOf(g, Corrected)(i', j')
      {
        CellTablesAgree(g, i', j');
      }
      GridRowsAgree(CellsOf(g, AsWritten), CellsOf(g, Corrected), g.size, g.size);
    }
  }

  /** What is part of the front of a sequence is part of the whole. */
  lemma InFront<T>(x: multiset<T>, whole: seq<T>, front: seq<T>, back: seq<T>)
    requires whole == front + back && x <= multiset(front)
    ensures x <= multiset(whole)
  {
    assert multiset(whole) == multiset(front) + multiset(back);
  }

  /** What is part of the back of a sequence is part of the whole. */
  lemma InBack<T>(x: multiset<T>, whole: seq<T>, front: seq<T>, back: seq<T>)
    requires whole == front + back && x <= multiset(back)
    ensures x <= multiset(whole)
  {
    assert multiset(whole) == multiset(front) + multiset(back);
  }

  /** The segments of cell (i, j) are part of the segments of any longer prefix of its row. */
  lemma {:induction false} CellInRow(cells: (int, int) -> seq<LineSegment>, i: int, j: int, k: nat)
    requires 0 <= j < k
    ensures multiset(cells(i, j)) <= multiset(RowLines(cells, i, k))
  {
    if j < k - 1 {
      CellInRow(cells, i, j, k - 1);
      InFront(multiset(cells(i, j)), RowLines(cells, i, k), RowLines(cells, i, k - 1), cells(i, k - 1));
    } else {
      InBack(multiset(cells(i, j)), RowLines(cells, i, k), RowLines(cells, i, k - 1), cells(i, k - 1));
    }
  }

  /** Appending rows keeps what the earlier rows hold. */
  lemma {:induction false} RowsGrow(cells: (int, int) -> seq<LineSegment>, n: nat, x: multiset<LineSegment>, a: nat, b: nat)
    requires a <= b && x <= multiset(GridRows(cells, n, a))
    ensures x <= multiset(GridRows(cells, n, b))
  {
    if a < b {
      RowsGrow(cells, n, x, a, b - 1);
      InFront(x, GridRows(cells, n, b), GridRows(cells, n, b - 1), RowLines(cells, b - 1, n));
    }
  }

  /** Every cell of the grid contributes its segments to the result, under either switch. */
  lemma EveryCellContributes(g: Grid, t: Table, i: int, j: int)
    requires 0 <= i < g.size && 0 <= j < g.size
    ensures multiset(LinesOfCell(g, t, i, j)) <= multiset(GridLines(g, t))
  {
    var cells, x := CellsOf(g, t), multiset(LinesOfCell(g, t, i, j));
    CellInRow(cells, i, j, g.size);
    InBack(x, GridRows(cells, g.size, i + 1), GridRows(cells, g.size, i), RowLines(cells, i, g.size));
    RowsGrow(cells, g.size, x, i + 1, g.size);
  }

  /** On an increasing range every grid cell is a square whose side is the step DT. */
  lemma GridCellIsSquare(g: Grid, i: int, j: int)
    requires g.size > 0 && g.minV <= g.maxV
    ensures var fr := CellFrame(g, i, j);
            var dt := Dt(g.minV, g.maxV, g.size);
            fr.xNe - fr.xSw == dt && fr.yNe - fr.ySw == dt
  {
    FromIndexSpaceStep(0, g.minV, g.maxV, g.size);
    FromIndexSpaceStep(i, g.minV, g.maxV, g.size);
    FromIndexSpaceStep(j, g.minV, g.maxV, g.size);
  }

  /**
   * On an increasing range, every segment of a grid cell joins the zero
   * crossings of two of the cell's sign-change edges: always under the
   * corrected switch, and under the engine's own switch for every cell that
   * is not case 10.
   */
  lemma GridSegmentsJoinCrossings(g: Grid, t: Table, i: int, j: int)
    requires g.size > 0 && g.minV <= g.maxV
    requires t == Corrected || CaseIndex(CellCorners(g, CellFrame(g, i, j))) != 10
    ensures var fr := CellFrame(g, i, j);
            var v := CellCorners(g, fr);
            var pairs := EdgePairs(CaseIndex(v));
            |LinesOfCell(g, t, i, j)| == |pairs| &&
            forall n :: 0 <= n < |pairs| ==>
              SignChange(v, pairs[n].0) && SignChange(v, pairs[n].1) &&
              var s := LinesOfCell(g, t, i, j)[n];
              Point(s.x1, s.y1) == Crossing(fr, v, pairs[n].0) && Point(s.x2, s.y2) == Crossing(fr, v, pairs[n].1)
  {
    var fr := CellFrame(g, i, j);
    GridCellIsSquare(g, i, j);
    CellLinesAreCrossings(fr, CellCorners(g, fr), Dt(g.minV, g.maxV, g.size));
    if t == AsWritten {
      CellTablesAgree(g, i, j);
    }
  }

  /**
   * The engine's output for a one-cell grid over [0, 1]^2 whose field is -1,
   * 3, -1, 1 at the corners A, B, C, D: the grid is case 10, and the first
   * segment the engine emits starts at (0.25, 1), while the corrected switch
   * starts it at the top crossing (0.5, 1).
   */
  lemma Case10GridOffContour(g: Grid)
    requires g.size == 1 && g.minV == 0.0 && g.maxV == 1.0
    requires g.field(0.0, 0.0) == -1.0 && g.field(1.0, 0.0) == 3.0
    requires g.field(1.0, 1.0) == -1.0 && g.field(0.0, 1.0) == 1.0
    ensures |GridLines(g, AsWritten)| == 2 && |GridLines(g, Corrected)| == 2
    ensures GridLines(g, AsWritten)[0] == LineSegment(0.25, 1.0, 1.0, 0.75)
    ensures GridLines(g, Corrected)[0] == LineSegment(0.5, 1.0, 1.0, 0.75)
  {
    var fr, v := Frame(0.0, 1.0, 0.0, 1.0), Corners(-1.0, 3.0, -1.0, 1.0);
    Case10GridCell(g);
    OneCellGrid(g, AsWritten);
    OneCellGrid(g, Corrected);
    Case10Segment(fr, v);
    Case10CorrectedSegment(fr, v);
    CaseLineCount(10, fr, OffsetsOf(v, 1.0));
  }

  /** The single cell of that grid: the unit square, its corner values and DT = 1. */
  lemma Case10GridCell(g: Grid)
    requires g.size == 1 && g.minV == 0.0 && g.maxV == 1.0
    requires g.field(0.0, 0.0) == -1.0 && g.field(1.0, 0.0) == 3.0
    requires g.field(1.0, 1.0) == -1.0 && g.field(0.0, 1.0) == 1.0
    ensures CellFrame(g, 0, 0) == Frame(0.0, 1.0, 0.0, 1.0)
    ensures CellCorners(g, CellFrame(g, 0, 0)) == Corners(-1.0, 3.0, -1.0, 1.0)
    ensures Dt(g.minV, g.maxV, g.size) == 1.0
  {
  }

  /** A one-cell grid holds exactly the segments of its cell. */
  lemma OneCellGrid(g: Grid, t: Table)
    requires g.size == 1
    ensures GridLines(g, t) == LinesOfCell(g, t, 0, 0)
  {
    assert RowLines(CellsOf(g, t), 0, 1) == LinesOfCell(g, t, 0, 0);
  }

  /** One more cell of row i appended to a list that holds the cells before it. */
  lemma RowStep(cells: (int, int) -> seq<LineSegment>, i: int, j: nat, local: seq<LineSegment>,
                out: seq<LineSegment>, segs: seq<LineSegment>)
    requires out == local + RowLines(cells, i, j) && segs == cells(i, j)
    ensures out + segs == local + RowLines(cells, i, j + 1)
  {
  }

  /** One more row appended to a list that holds the rows before it. */
  lemma RowsStep(cells: (int, int) -> seq<LineSegment>, n: nat, i: nat, before: seq<LineSegment>,
                 after: seq<LineSegment>)
    requires before == GridRows(cells, n, i) && after == before + RowLines(cells, i, n)
    ensures after == GridRows(cells, n, i + 1)
  {
  }

  /**
   * The body of the engine's loop for row i and column j: sample the corners,
   * compute the crossing offsets and the case index, and select the case's
   * segments.
   */
  method CellSegments(field: (real, real) -> real, gridSize: int, minV: real, maxV: real, dt: real, i: int, j: int)
    returns (segs: seq<LineSegment>)
    requires gridSize > 0 && dt == Dt(minV, maxV, gridSize)
    ensures segs == CellsOf(Grid(field, gridSize, minV, maxV), AsWritten)(i, j)
    ensures |segs| <= CellCapacity
  {
    var xSw := FromIndexSpace(j, minV, maxV, gridSize);
    var xNe := FromIndexSpace(j + 1, minV, maxV, gridSize);
    var ySw := FromIndexSpace(i, minV, maxV, gridSize);
    var yNe := FromIndexSpace(i + 1, minV, maxV, gridSize);
    var a, b, c, d := field(xSw, ySw), field(xNe, ySw), field(xNe, yNe), field(xSw, yNe);
    var offsets := Offsets(EdgeOffset(a, b, dt), EdgeOffset(b, c, dt), EdgeOffset(c, d, dt), EdgeOffset(d, a, dt));
    var cCase := CaseIndex(Corners(a, b, c, d));
    segs := CaseLines(cCase, Frame(xSw, xNe, ySw, yNe), offsets);
  }

  /**
   * The inner loop of the engine for row i: the segments of cells (i, 0) ..
   * (i, gridSize - 1) are appended to the thread-local list in column order.
   */
  method AppendRow(field: (real, real) -> real, gridSize: int, minV: real, maxV: real, dt: real, i: int,
                   local: seq<LineSegment>)
    returns (out: seq<LineSegment>)
    requires gridSize > 0 && dt == Dt(minV, maxV, gridSize)
    ensures out == local + RowLines(CellsOf(Grid(field, gridSize, minV, maxV), AsWritten), i, gridSize)
  {
    ghost var cells := CellsOf(Grid(field, gridSize, minV, maxV), AsWritten);
    out := local;
    var j := 0;
    while j < gridSize
      invariant 0 <= j <= gridSize
      invariant out == local + RowLines(cells, i, j)
    {
      var segs := CellSegments(field, gridSize, minV, maxV, dt, i, j);
      RowStep(cells, i, j, local, out, segs);
      out := out + segs;
      j := j + 1;
    }
  }

  /**
   * The rows of the engine's loop, run one after the other: row i appends its
   * cells' segments to the thread-local list.
   */
  method AllRows(field: (real, real) -> real, gridSize: int, minV: real, maxV: real) returns (local: seq<LineSegment>)
    requires gridSize > 0
    ensures local == GridRows(CellsOf(Grid(field, gridSize, minV, maxV), AsWritten), gridSize, gridSize)
  {
    ghost var cells := CellsOf(Grid(field, gridSize, minV, maxV), AsWritten);
    var dt := Dt(minV, maxV, gridSize);
    local := [];
    var i := 0;
    while i < gridSize
      invariant 0 <= i <= gridSize
      invariant local == GridRows(cells, gridSize, i)
    {
      ghost var before := local;
      local := AppendRow(field, gridSize, minV, maxV, dt, i, local);
      RowsStep(cells, gridSize, i, before, local);
      i := i + 1;
    }
  }

  /**
   * The engine's loop: every row's segments are collected in a thread-local
   * list, which is then merged into the result.
   */
  method MarchingSquares(field: (real, real) -> real, gridSize: int, minV: real, maxV: real)
    returns (lines: seq<LineSegment>)
    ensures multiset(lines) == multiset(GridLines(Grid(field, gridSize, minV, maxV), AsWritten))
  {
    lines := [];
    var local: seq<LineSegment> := [];
    if gridSize > 0 {
      local := AllRows(field, gridSize, minV, maxV);
    }
    lines := lines + local;
    assert lines == GridLines(Grid(field, gridSize, minV, maxV), AsWritten);
  }
}
