# Marching squares and its line renderer, in Dafny

This project models the core of a marching-squares contour extractor. It
also models the rasteriser that draws the contour.

**Extractor.** The extractor samples a scalar field `f(x, y)` on a
`gridSize x gridSize` grid of square cells covering `[minV, maxV]^2`. For
each cell it:

- reads the field at the four corners (A south-west, B south-east, C
  north-east, D north-west);
- builds a 4-bit case index from the signs of those values;
- uses a sixteen-way case switch to emit zero, one or two line segments;
- places each segment end point on a cell edge, using linear interpolation
  of the corner values along that edge.

Each worker thread collects its segments locally, and the local lists are
appended to the result.

**Renderer.** The renderer works as follows:

- It allocates a white RGB buffer of `imgW x imgH` pixels.
- It skips every segment whose two end points are both outside the view
  box.
- It clamps the remaining end points into the box and maps them to pixel
  indices, then clamps those indices into the image.
- It draws each segment black with a square brush. The brush is
  Bresenham's integer line repeated at every offset of a
  `(2*half+1) x (2*half+1)` square.

**Modules.**

- `Geometry` holds the shared helpers: the grid mapping, interpolation, the
  segment record and the default two-slot per-cell output record.
- `CaseTable` holds the per-cell logic: the case index, the edge offsets,
  the case switch as written and as corrected, and the proof that the
  corrected segments join zero crossings of the field.
- `MarchingSquares` holds the grid traversal. The specification has one
  function per loop level, parameterised by the switch a cell uses
  (`AsWritten` or `Corrected`). The methods model the engine's loops with
  the switch as written; the corrected traversal is a second specification.
  The two are proved equal on every grid with no case-10 cell, and different
  on a one-cell case-10 grid.
- `Bresenham` holds the integer line loop as a state machine: its
  invariant, its termination, its end point and its connectivity.
- `Renderer` holds the byte buffer as an `array<byte>` updated in place by
  methods, each proved equal to a pointwise specification function
  `PlotAll`.

## Model

| member | source | states |
|---|---|---|
| Geometry.FromIndexSpace | src/marching_squares.hpp:6-9 | Grid index 0 maps to `minV` and index `gridSize` maps to `maxV`. |
| Geometry.FromIndexSpaceStep | src/marching_squares.hpp:6-9 | Consecutive grid indices are exactly `(maxV - minV) / gridSize` apart. |
| Geometry.FromIndexSpaceStrictlyIncreasing | src/marching_squares.hpp:6-9 | With a positive grid size and `minV < maxV`, the mapping is strictly increasing. |
| Geometry.Interp | src/marching_squares.hpp:11-14 | The fraction `r` is where the linear interpolation from A to B reaches zero (`A + r*(B-A) == 0`). It lies in [0, 1] whenever A and B differ in sign. |
| Geometry.InterpComplement | src/marching_squares.hpp:11-14 | Interpolating from B to A gives the complementary fraction: `interp(A,B) + interp(B,A) == 1`. |
| Geometry.InterpNegate | src/marching_squares.hpp:11-14 | Negating both values leaves the fraction unchanged. |
| Geometry.DefaultCellOutput | src/marching_squares.hpp:49-55 | A default cell output has two slots and `line_count` 0, so it holds no used segment. |
| CaseTable.CaseIndex | src/iterations/it2.cpp:39-42 | The case lies in 0..15. Bit 0 is set iff A > 0, bit 1 iff B > 0, bit 2 iff C > 0 and bit 3 iff D > 0 (each an if-and-only-if). |
| CaseTable.CaseIndexNegate | src/iterations/it2.cpp:39-42 | When no corner is zero, negating the field turns case k into case 15 - k. |
| CaseTable.OffsetsNegate | src/iterations/it2.cpp:36 | Negating every corner value leaves all four edge offsets unchanged. |
| CaseTable.EdgeOffsetBounds | src/iterations/it2.cpp:36 | On an edge whose end values differ in sign, the offset lies between 0 and DT. |
| CaseTable.EdgeOffset | src/iterations/it2.cpp:36 | On an edge with values p != q, the offset r is the distance, in units of DT, at which the interpolant vanishes: `p*DT + r*(q - p) == 0`. |
| CaseTable.OffsetsOf | src/iterations/it2.cpp:36 | Each of the four offsets is computed from the two corner values of its own edge. |
| CaseTable.CaseLines | src/iterations/it2.cpp:45-83 | The switch as written emits at most two segments. Its exact counts are in CaseLineCount, and its end points are in EndpointsOnBoundary. |
| CaseTable.CellLinesAsWritten | src/iterations/it2.cpp:31-83 | One cell as written, with the case index and offsets of its corner values: at most two segments. |
| CaseTable.CellLines | src/iterations/it2.cpp:31-83 | One cell with the corrected switch: at most two segments, identical to the cell as written unless the cell is case 10. |
| CaseTable.CaseLineCount | src/iterations/it2.cpp:45-83 | Cases 0 and 15 emit no segment, cases 5 and 10 emit two, and every other case emits one. The corrected table emits the same number. |
| CaseTable.FixedCaseLines | src/iterations/it2.cpp:45-83 | The corrected switch emits at most two segments. It agrees with the switch as written on every case except 10. |
| CaseTable.ComplementCasesAgree | src/iterations/it2.cpp:50-78 | Each case other than the saddles 5 and 10 emits the same segments as its complement 15 - k. |
| CaseTable.SaddlesCombineSingleCases | src/iterations/it2.cpp:50-82 | Saddle case 5 emits the segments of cases 7 and 2. The corrected case 10 emits those of cases 4 and 1. |
| CaseTable.NegatedFieldSameLines | src/iterations/it2.cpp:36-83 | For a non-saddle cell with no zero corner, the field and its negation give the same segments. |
| CaseTable.EndpointsOnBoundary | src/iterations/it2.cpp:50-82 | Every segment end point, as written and corrected, lies on the boundary of its cell. |
| CaseTable.EndpointsInCell | src/iterations/it2.cpp:26-83 | In a square cell of side DT, every segment end point, as written and corrected, lies inside the cell. |
| CaseTable.EdgePairsTouchBitChanges | src/iterations/it2.cpp:45-83 | The case's edge pairs use each edge exactly once if its two corner bits differ, and not at all otherwise. CaseLinesOnSides ties the pairs to the switch as written, and FixedCaseLinesFollowEdgePairs ties them to the corrected switch. |
| CaseTable.SignChangeEdgesTouchedOnce | src/iterations/it2.cpp:31-83 | The edge pairs of a cell's case touch each edge once iff the field changes sign along it, and not at all otherwise. Through CaseLinesOnSides this holds for the sides the engine's segments end on. |
| CaseTable.CaseLinesOnSides | src/iterations/it2.cpp:45-83 | The switch as written, case 10 included, emits one segment per edge pair of the case. Each end point of segment i lies on the side line of the edge that pair i names. |
| CaseTable.FixedCaseLinesFollowEdgePairs | src/iterations/it2.cpp:45-83 | Segment i of the corrected switch runs from the offset point on the first edge of pair i to the offset point on the second edge. |
| CaseTable.OffsetIsScaledFraction | src/iterations/it2.cpp:36 | On a sign-change edge, the offset is the interpolation fraction of the edge's end values times DT. |
| CaseTable.OffsetPointIsCrossing | src/iterations/it2.cpp:36-82 | In a square cell, the point at an edge's offset is the zero crossing of the linear interpolation along that edge. |
| CaseTable.CellLinesAreCrossings | src/iterations/it2.cpp:26-83 | In a square cell, each corrected segment joins the zero crossings on two edges where the field changes sign. There is one segment per edge pair of the case. |
| CaseTable.Case10FirstEndpointOffContour | src/iterations/it2.cpp:79-82 | With A=-1, B=3, C=-1, D=1 on the unit cell (case 10), the first segment as written starts at (0.25, 1). None of the four crossings (0.25,0), (1,0.75), (0.5,1) and (0,0.5) is at that point. |
| CaseTable.Case10CorrectedSegment | src/iterations/it2.cpp:79-82 | For the same cell, the corrected first segment runs from the top crossing (0.5, 1) to the right crossing (1, 0.75). |
| MarchingSquares.Dt | src/iterations/it2.cpp:9 | DT is non-negative. When `minV <= maxV` it is exactly the spacing of the grid mapping. |
| MarchingSquares.CellFrame | src/iterations/it2.cpp:26-29 | The first column and row start at `minV`, and the last column and row end at `maxV`, so the cells cover the square. |
| MarchingSquares.CellCorners | src/iterations/it2.cpp:31-34 | The two values of every cell edge are the field at that edge's two end points. |
| MarchingSquares.LinesOfCell | src/iterations/it2.cpp:25-83 | One cell contributes at most two segments, under either switch. |
| MarchingSquares.CellTablesAgree | src/iterations/it2.cpp:45-83 | A cell that is not case 10 gets the same segments from the switch as written and the corrected one. |
| MarchingSquares.GridLines | src/iterations/it2.cpp:20-91 | All cells' segments in row-major order: at most 2 * gridSize^2 of them. |
| MarchingSquares.GridTablesAgree | src/iterations/it2.cpp:20-91 | A grid with no case-10 cell produces the same output under both switches. |
| MarchingSquares.GridCellIsSquare | src/iterations/it2.cpp:26-29 | Every cell frame is a square of side DT when `minV <= maxV`. |
| MarchingSquares.GridSegmentsJoinCrossings | src/iterations/it2.cpp:20-83 | On an increasing range, a cell's segments join zero crossings on sign-change edges, one segment per edge pair. This holds for every cell under the corrected switch, and for every cell that is not case 10 under the switch as written. |
| MarchingSquares.Case10GridOffContour | src/iterations/it2.cpp:79-82 | The engine's output for a one-cell case-10 grid over [0,1]^2 (corners -1, 3, -1, 1) starts with the segment (0.25,1)-(1,0.75). The corrected output starts with (0.5,1)-(1,0.75). |
| MarchingSquares.OneCellGrid | src/iterations/it2.cpp:20-91 | A one-cell grid outputs exactly the segments of its cell. |
| MarchingSquares.EveryCellContributes | src/iterations/it2.cpp:20-24 | Under either switch, the segments of every cell (i, j) in range appear in the output, counted with multiplicity. |
| MarchingSquares.CellSegments | src/iterations/it2.cpp:25-83 | The per-cell loop body samples the corners, computes the offsets and the case index, and runs the switch as written. It returns exactly the cell's segments as written, at most two of them. |
| MarchingSquares.AppendRow | src/iterations/it2.cpp:23-84 | The inner loop appends the as-written segments of cells (i, 0) .. (i, gridSize-1), in order, to the thread-local list. |
| MarchingSquares.AllRows | src/iterations/it2.cpp:20-85 | The outer loop leaves the local list holding the as-written segments of all rows, in row-major order. |
| MarchingSquares.MarchingSquares | src/iterations/it2.cpp:6-95 | The returned segments are, as a multiset, exactly the as-written segments of all cells of the grid. |
| Bresenham.StartTracking | src/renderer.cpp:16-20 | The initial values of dx, dy, sx, sy and err satisfy the loop invariant. |
| Bresenham.Step | src/renderer.cpp:35-45 | One iteration moves each axis by 0 or by its step direction. StepMoves and StepAdvances give its progress. |
| Bresenham.Trace | src/renderer.cpp:22-46 | The points the loop visits from a tracked state start at the current point. TraceEndsAtTarget, TraceAdvances and TraceBounded give the rest. |
| Bresenham.StepMoves | src/renderer.cpp:35-45 | Before the end point, an x step is taken only while x has ground left, and likewise for y. At least one of the two tests passes. |
| Bresenham.StepAdvances | src/renderer.cpp:35-45 | One iteration keeps the invariant, strictly decreases the distance left and moves to an 8-neighbour in the direction of travel. |
| Bresenham.TraceEndsAtTarget | src/renderer.cpp:22-46 | The loop's points end at (x2, y2). There is at least one point per unit still to go on either axis, and at most one per unit on both. |
| Bresenham.TraceAdvances | src/renderer.cpp:22-46 | Consecutive points visited by the loop are one iteration apart. |
| Bresenham.TraceBounded | src/renderer.cpp:22-46 | No visited point lies behind the current point or beyond the end point on either axis. |
| Bresenham.LinePoints | src/renderer.cpp:16-46 | The line's points start at (x1, y1). |
| Bresenham.LinePointsEnds | src/renderer.cpp:16-46 | The line's points end at (x2, y2). Their number is at least `max(|dx|,|dy|) + 1` and at most `|dx| + |dy| + 1`. |
| Bresenham.LinePointsConnected | src/renderer.cpp:16-46 | Consecutive points of the line are 8-neighbours. |
| Bresenham.LinePointsInBox | src/renderer.cpp:16-46 | Every point of the line lies in the bounding box of its two end points. |
| Bresenham.LinePointsShift | src/renderer.cpp:16-46 | Moving both end points by (ox, oy) moves every point of the line by (ox, oy). |
| Renderer.Plot | src/renderer.cpp:24-30 | Plotting keeps the buffer size. PlotAt gives the bytes it changes. |
| Renderer.PlotAt | src/renderer.cpp:24-30 | Plotting a point zeroes exactly the three channel bytes of an in-image point and leaves every other byte unchanged. |
| Renderer.CoversOnePixel | src/renderer.cpp:27-29 | Two in-image pixels that share a channel byte are the same pixel. |
| Renderer.PlotAll | src/renderer.cpp:22-64 | Plotting a sequence of points keeps the buffer size. PlotAllAt gives the byte values, and PlotInOrderIsPlotAll equates it with plotting one point at a time. |
| Renderer.PlotAllAt | src/renderer.cpp:22-64 | After plotting a sequence of points, a byte is 0 if some in-image point of the sequence owns it, and keeps its old value otherwise. |
| Renderer.PlotInOrderIsPlotAll | src/renderer.cpp:22-46 | Plotting points one after the other gives the pointwise image: a covered byte becomes 0, and every other byte keeps its old value. |
| Renderer.PlotAllAppend | src/renderer.cpp:56-64 | Plotting `ps` and then `qs` is the same as plotting `ps + qs`. |
| Renderer.PlotPixel | src/renderer.cpp:24-30 | The guarded write sets the pixel's three channel bytes to 0 when it is inside the image, and otherwise changes nothing. |
| Renderer.StepLoop | src/renderer.cpp:35-45 | The end-of-iteration update computes exactly one loop step, with both tests reading the doubled error taken first. |
| Renderer.DrawLineHelper | src/renderer.cpp:13-47 | The buffer ends as the old buffer with exactly the in-image points of the line from (x1,y1) to (x2,y2) set black. No other byte changes. |
| Renderer.HalfWidth | src/renderer.cpp:51-52 | The half width is `max(1, lineWidth) / 2`. For a width of at least 1, twice the half width is the width or one less. |
| Renderer.StrokeIsShiftedLine | src/renderer.cpp:60-62 | The stroke drawn at an offset is the base line moved by that offset. |
| Renderer.BrushPoints | src/renderer.cpp:56-64 | The strokes for all offsets, in the source's loop order. BrushIsSquare characterises its points. |
| Renderer.BrushIsSquare | src/renderer.cpp:56-64 | A pixel is drawn by the brush iff it lies on the base line moved by some offset (ox, oy), with both offsets in [-half, half]. |
| Renderer.DrawColumn | src/renderer.cpp:58-63 | The inner offset loop plots exactly the strokes of one column of offsets. |
| Renderer.DrawLine | src/renderer.cpp:49-65 | The buffer ends as the old buffer plotted with all brush points, i.e. every stroke for offsets in the `(2*half+1)^2` square. |
| Renderer.ClampCoord | src/renderer.cpp:90-108 | A value below `minV` becomes `minV` and a value above `maxV` becomes `maxV`. A value in the box is kept. With `maxV < minV` the upper bound, applied last, wins. |
| Renderer.ClampPoint | src/renderer.cpp:88-109 | An end point inside the view box is unchanged. One outside has both coordinates clamped and lands in the box. A coordinate already in range keeps its value either way. |
| Renderer.ClipSegment | src/renderer.cpp:82-109 | A segment is skipped iff both of its end points are outside the box. Otherwise both end points end up inside the box, and an end point that was inside is kept. |
| Renderer.ClampPixel | src/renderer.cpp:118-121 | On an axis of n >= 1 pixels, a negative index becomes 0, an index of n or more becomes n-1, and an index in range is unchanged. |
| Renderer.SegmentEnds | src/renderer.cpp:112-123 | A drawn segment's clamped pixel ends are inside the image. It is drawn with half width 1, i.e. the 3 x 3 brush. |
| Renderer.SegmentPoints | src/renderer.cpp:81-123 | A skipped segment plots nothing. Otherwise it plots the brush around the line between its clamped pixel ends; SegmentEnds gives the ends and the 3 x 3 brush. |
| Renderer.ImagePoints | src/renderer.cpp:79-124 | The points of every segment, in list order. SegmentStep shows that drawing one more segment extends the image by its points. |
| Renderer.SegmentStep | src/renderer.cpp:79-124 | Drawing segment n onto the image of segments 0 .. n-1 gives the image of segments 0 .. n. |
| Renderer.DrawSegment | src/renderer.cpp:81-123 | One loop iteration plots exactly the points specified for the segment, and nothing when the segment is skipped. |
| Renderer.White | src/renderer.cpp:73-76 | The initial buffer has every byte 255. |
| Renderer.NewWhite | src/renderer.cpp:70-76 | The fill loop leaves a fresh buffer of the requested size with every byte 255. |
| Renderer.PlotAllTwoTone | src/renderer.cpp:73-123 | Plotting black onto a buffer of 0 and 255 bytes keeps every byte 0 or 255. |
| Renderer.RenderToImage | src/renderer.cpp:67-131 | The result is a fresh buffer of `w*h*3` bytes: white, then plotted with the brush points of every segment that is not skipped, in order. Every byte is 0 or 255. |

## Left out

- The conversion `static_cast<int>((c - minV) / (maxV - minV) * n)` (src/renderer.cpp:112-115) is a parameter `toPixel`. Floating-point division and truncation are not modelled, and the later clamping makes any value safe.
- Writing the PNG file (src/renderer.cpp:127) and freeing the buffer (src/renderer.cpp:130) are I/O and memory management; they are not modelled. The image stays in the returned array.
- `double` is modelled as `real`. Rounding, NaN and infinities are not modelled.
- `Geometry.Interp`: requires `B != A`. The source divides by zero there. On an edge without a sign change the case switch never reads that offset, so `CaseTable.EdgeOffset` uses 0.
- C++ `int` is modelled as an unbounded integer. 32-bit overflow of `(y*w + x)*3`, `err * 2` or `w*h*3` is not modelled.
- The OpenMP parallel region, the static schedule and the critical section (src/iterations/it2.cpp:11-20, 88-91) are modelled as one sequential traversal. The merge order between threads is unspecified, so `MarchingSquares.MarchingSquares` promises the result only as a multiset.
- The field is passed as a function value instead of a function pointer. The example fields in main.cpp are not part of this model.
- The CUDA variant is not part of this model, apart from the `CellOutput` record it uses. Of that record, only the default constructor (src/marching_squares.hpp:54) is modelled.
- The header declares `marching_squares` as returning a `deque`, while src/iterations/it2.cpp returns a `vector`. The model has one sequence type.
- DT takes the absolute value of `minV - maxV` (src/iterations/it2.cpp:9), while `fromIndexSpace` decreases when `minV > maxV`. On such a range every offset is measured away from its cell, so `CaseTable.EndpointsInCell`, `MarchingSquares.GridCellIsSquare` and `MarchingSquares.GridSegmentsJoinCrossings` require `minV <= maxV`.
- src/main.cpp, src/renderer.hpp and the Python plotting scripts are not part of this model.
- `Renderer.DrawColumn`, `Renderer.StepLoop`, `Renderer.DrawSegment`, `Renderer.NewWhite`, `MarchingSquares.CellSegments` and `MarchingSquares.AppendRow` are methods split out of the source's nested loops. They are not separate functions in the source.

## Findings

| source | as written | input that shows it | evidently intended | confidence | as-written member | corrected member |
|---|---|---|---|---|---|---|
| src/iterations/it2.cpp:80 | Case 10 starts its first segment at `(x_sw + d_bottom, y_ne)`, an x offset from the bottom edge placed on the top edge. | A one-cell grid over [0,1]^2 whose field is A=-1, B=3, C=-1, D=1 at the corners (DT = 1) is case 10. The engine's first segment starts at (0.25, 1), but the crossings are (0.25,0), (1,0.75), (0.5,1) and (0,0.5). | `(x_ne - d_top, y_ne)`, the top-edge crossing, so that case 10 emits the segments of cases 4 and 1 as case 5 does with 7 and 2. | not executed | MarchingSquares.Case10GridOffContour | CaseTable.CellLinesAreCrossings |
