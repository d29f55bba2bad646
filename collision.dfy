/**
 * Circle-versus-grid collision (`circle_collides`) and the movement fallback
 * policy built on it: try candidate positions in a fixed order and commit
 * the first one where the body does not collide.
 */
module Collision {
  import opened Level
  import opened RealArith

  /** A point, or a displacement, in world units. */
  datatype Pos = Pos(x: real, y: real)

  /** `((v / cell_size).floor()).max(0.0)`: a bounding-box edge's cell index, never below 0. */
  function BoxIndex(v: real, cs: real): (i: int)
    requires cs > 0.0
    ensures 0 <= i
    ensures v >= 0.0 ==> i == (v / cs).Floor
    ensures v < 0.0 ==> i == 0
  {
    var f := (v / cs).Floor;
    if f < 0 then 0 else f
  }

  /** `f32::clamp`. */
  function Clamp(v: real, lo: real, hi: real): (c: real)
    requires lo <= hi
    ensures lo <= c <= hi
    ensures lo <= v <= hi ==> c == v
    ensures v < lo ==> c == lo
    ensures hi < v ==> c == hi
  {
    if v < lo then lo else if v > hi then hi else v
  }

  /**
   * On one axis, the offset from `v` to its clamp into the span of cell `i`,
   * the span written as the source writes it: the cell's midpoint plus or
   * minus half a cell.
   */
  function Gap(v: real, i: int, cs: real): real
    requires cs > 0.0
  {
    var mid := (i as real + 0.5) * cs;
    var half := cs * 0.5;
    v - Clamp(v, mid - half, mid + half)
  }

  /** Squared distance from `(cx, cy)` to the closest point of cell `(col, row)`. */
  function ClampDistSq(cx: real, cy: real, col: int, row: int, cs: real): real
    requires cs > 0.0
  {
    Sq(Gap(cx, col, cs)) + Sq(Gap(cy, row, cs))
  }

  /**
   * Cell `(col, row)` is in the grid, blocks, and reaches strictly inside
   * the circle of radius `r` around `(cx, cy)`.
   */
  predicate Touches(grid: Grid, cs: real, cx: real, cy: real, r: real, col: int, row: int)
    requires cs > 0.0 && Rectangular(grid)
  {
    InGrid(grid, col, row) && IsBlocking(grid[row][col]) && ClampDistSq(cx, cy, col, row, cs) < Sq(r)
  }

  /** The inner loop of the scan: columns `col..=maxCol` of one row, stopping at the first touching cell. */
  function ScanCols(grid: Grid, cs: real, cx: real, cy: real, r: real, row: int, col: int, maxCol: int): bool
    requires cs > 0.0 && Rectangular(grid)
    decreases maxCol - col
  {
    if col > maxCol then false
    else if Touches(grid, cs, cx, cy, r, col, row) then true
    else ScanCols(grid, cs, cx, cy, r, row, col + 1, maxCol)
  }

  /** The outer loop of the scan: rows `row..=maxRow`, each over columns `minCol..=maxCol`. */
  function ScanRows(grid: Grid, cs: real, cx: real, cy: real, r: real, row: int, maxRow: int, minCol: int, maxCol: int): bool
    requires cs > 0.0 && Rectangular(grid)
    decreases maxRow - row
  {
    if row > maxRow then false
    else ScanCols(grid, cs, cx, cy, r, row, minCol, maxCol) || ScanRows(grid, cs, cx, cy, r, row + 1, maxRow, minCol, maxCol)
  }

  /** `circle_collides`: scan the cells of the circle's bounding box, clamped below at index 0. */
  function CircleCollides(cx: real, cy: real, r: real, grid: Grid, cs: real): bool
    requires cs > 0.0 && Rectangular(grid)
  {
    ScanRows(grid, cs, cx, cy, r, BoxIndex(cy - r, cs), BoxIndex(cy + r, cs), BoxIndex(cx - r, cs), BoxIndex(cx + r, cs))
  }

  /** The column scan finds a touching cell exactly when one lies in its range. */
  lemma {:induction false} ScanColsIff(grid: Grid, cs: real, cx: real, cy: real, r: real, row: int, col: int, maxCol: int)
    requires cs > 0.0 && Rectangular(grid)
    ensures ScanCols(grid, cs, cx, cy, r, row, col, maxCol) <==>
      exists c :: col <= c <= maxCol && Touches(grid, cs, cx, cy, r, c, row)
    decreases maxCol - col
  {
    if col <= maxCol && !Touches(grid, cs, cx, cy, r, col, row) {
      ScanColsIff(grid, cs, cx, cy, r, row, col + 1, maxCol);
      if exists c :: col <= c <= maxCol && Touches(grid, cs, cx, cy, r, c, row) {
        var c :| col <= c <= maxCol && Touches(grid, cs, cx, cy, r, c, row);
        assert col + 1 <= c;
      }
    }
  }

  /** The row scan finds a touching cell exactly when one lies in its rectangle. */
  lemma {:induction false} ScanRowsIff(grid: Grid, cs: real, cx: real, cy: real, r: real, row: int, maxRow: int, minCol: int, maxCol: int)
    requires cs > 0.0 && Rectangular(grid)
    ensures ScanRows(grid, cs, cx, cy, r, row, maxRow, minCol, maxCol) <==>
      exists rr, c :: row <= rr <= maxRow && minCol <= c <= maxCol && Touches(grid, cs, cx, cy, r, c, rr)
    decreases maxRow - row
  {
    if row <= maxRow {
      ScanColsIff(grid, cs, cx, cy, r, row, minCol, maxCol);
      ScanRowsIff(grid, cs, cx, cy, r, row + 1, maxRow, minCol, maxCol);
      if exists rr, c :: row <= rr <= maxRow && minCol <= c <= maxCol && Touches(grid, cs, cx, cy, r, c, rr) {
        var rr, c :| row <= rr <= maxRow && minCol <= c <= maxCol && Touches(grid, cs, cx, cy, r, c, rr);
        if rr == row {
          assert exists c' :: minCol <= c' <= maxCol && Touches(grid, cs, cx, cy, r, c', row);
        }
      }
    }
  }

  /**
   * `circle_collides` is true exactly when some in-grid blocking cell of the
   * circle's bounding box comes strictly closer than `r` to the centre, so
   * out-of-grid and walkable cells never count and an empty grid never
   * collides.
   */
  lemma CircleCollidesIff(cx: real, cy: real, r: real, grid: Grid, cs: real)
    requires cs > 0.0 && Rectangular(grid)
    ensures CircleCollides(cx, cy, r, grid, cs) <==> exists row, col ::
      BoxIndex(cy - r, cs) <= row <= BoxIndex(cy + r, cs) &&
      BoxIndex(cx - r, cs) <= col <= BoxIndex(cx + r, cs) &&
      Touches(grid, cs, cx, cy, r, col, row)
    ensures |grid| == 0 ==> !CircleCollides(cx, cy, r, grid, cs)
  {
    ScanRowsIff(grid, cs, cx, cy, r, BoxIndex(cy - r, cs), BoxIndex(cy + r, cs), BoxIndex(cx - r, cs), BoxIndex(cx + r, cs));
  }

  /** The reference meaning of a collision: any blocking cell of the whole grid overlaps the disc. */
  ghost predicate Overlaps(grid: Grid, cs: real, cx: real, cy: real, r: real)
    requires cs > 0.0 && Rectangular(grid)
  {
    exists row, col :: Touches(grid, cs, cx, cy, r, col, row)
  }

  /**
   * On one axis: if the centre coordinate `v` is within `r` of its clamp
   * into cell `i`'s span, then `i` lies between the box indices of `v - r`
   * and `v + r`.
   */
  lemma AxisInsideBox(v: real, r: real, i: int, cs: real)
    requires cs > 0.0 && r >= 0.0 && i >= 0
    requires Sq(Gap(v, i, cs)) < Sq(r)
    ensures BoxIndex(v - r, cs) <= i <= BoxIndex(v + r, cs)
  {
    var m := (i as real + 0.5) * cs;
    var lo, hi := m - cs * 0.5, m + cs * 0.5;
    assert lo == i as real * cs && hi == (i + 1) as real * cs;
    var c := Clamp(v, lo, hi);
    SquareBound(v - c, r);
    DivBelow(v - r, (i + 1) as real, cs);
    DivAbove(v + r, i as real, cs);
  }

  /** A cell whose clamped distance is below `r` lies inside the disc's bounding box. */
  lemma TouchInsideBox(cs: real, cx: real, cy: real, r: real, col: int, row: int)
    requires cs > 0.0 && r >= 0.0 && col >= 0 && row >= 0
    requires ClampDistSq(cx, cy, col, row, cs) < Sq(r)
    ensures BoxIndex(cx - r, cs) <= col <= BoxIndex(cx + r, cs)
    ensures BoxIndex(cy - r, cs) <= row <= BoxIndex(cy + r, cs)
  {
    SumSquaresBound(Gap(cx, col, cs), Gap(cy, row, cs), Sq(r));
    AxisInsideBox(cx, r, col, cs);
    AxisInsideBox(cy, r, row, cs);
  }

  /**
   * Scanning only the bounding box loses nothing: for a radius `r >= 0`,
   * `circle_collides` agrees with the whole-grid overlap test.
   */
  lemma CollidesIffOverlaps(grid: Grid, cs: real, cx: real, cy: real, r: real)
    requires cs > 0.0 && Rectangular(grid) && r >= 0.0
    ensures CircleCollides(cx, cy, r, grid, cs) <==> Overlaps(grid, cs, cx, cy, r)
  {
    CircleCollidesIff(cx, cy, r, grid, cs);
    if Overlaps(grid, cs, cx, cy, r) {
      var row, col :| Touches(grid, cs, cx, cy, r, col, row);
      TouchInsideBox(cs, cx, cy, r, col, row);
    }
  }

  /** A coordinate lies in the span of cell `floor(v / cs)`, so clamping leaves it where it is. */
  lemma ClampInOwnCell(v: real, cs: real)
    requires cs > 0.0
    ensures var mid := ((v / cs).Floor as real + 0.5) * cs;
      Clamp(v, mid - cs * 0.5, mid + cs * 0.5) == v
  {
    var i := (v / cs).Floor;
    FloorSpans(v, cs);
    var mid := (i as real + 0.5) * cs;
    assert mid - cs * 0.5 == i as real * cs;
    assert mid + cs * 0.5 == (i as real + 1.0) * cs;
  }

  /** The cell containing the centre of a disc of positive radius reaches strictly inside it. */
  lemma OwnCellClose(cx: real, cy: real, r: real, cs: real)
    requires cs > 0.0 && r > 0.0
    ensures ClampDistSq(cx, cy, (cx / cs).Floor, (cy / cs).Floor, cs) < Sq(r)
  {
    ClampInOwnCell(cx, cs);
    ClampInOwnCell(cy, cs);
    var midX, midY := ((cx / cs).Floor as real + 0.5) * cs, ((cy / cs).Floor as real + 0.5) * cs;
    NoGapIsClose(cx, cy, Clamp(cx, midX - cs * 0.5, midX + cs * 0.5), Clamp(cy, midY - cs * 0.5, midY + cs * 0.5), r);
  }

  /** A disc of positive radius whose centre is inside an in-grid blocking cell collides. */
  lemma CentreInBlockingCell(grid: Grid, cs: real, cx: real, cy: real, r: real)
    requires cs > 0.0 && Rectangular(grid) && r > 0.0
    requires InGrid(grid, (cx / cs).Floor, (cy / cs).Floor)
    requires IsBlocking(grid[(cy / cs).Floor][(cx / cs).Floor])
    ensures CircleCollides(cx, cy, r, grid, cs)
  {
    OwnCellClose(cx, cy, r, cs);
    assert Touches(grid, cs, cx, cy, r, (cx / cs).Floor, (cy / cs).Floor);
    CollidesIffOverlaps(grid, cs, cx, cy, r);
  }

  // ---------------------------------------------------------------------------
  // Fallback movement: the first collision-free candidate wins

  /** A body of radius `r` centred at `p` collides with nothing. */
  predicate Free(grid: Grid, cs: real, r: real, p: Pos)
    requires cs > 0.0 && Rectangular(grid)
  {
    !CircleCollides(p.x, p.y, r, grid, cs)
  }

  /** The index of the first free candidate, or `|cands|` when every candidate collides. */
  function FirstFree(grid: Grid, cs: real, r: real, cands: seq<Pos>): (k: nat)
    requires cs > 0.0 && Rectangular(grid)
    ensures k <= |cands|
    ensures forall j :: 0 <= j < k ==> !Free(grid, cs, r, cands[j])
    ensures k < |cands| ==> Free(grid, cs, r, cands[k])
  {
    if |cands| == 0 then 0
    else if Free(grid, cs, r, cands[0]) then 0
    else 1 + FirstFree(grid, cs, r, cands[1..])
  }

  /**
   * The chain of guarded assignments the movers use: commit the first
   * candidate that does not collide, and stay at `orig` when none is free.
   */
  function Resolve(grid: Grid, cs: real, r: real, orig: Pos, cands: seq<Pos>): (p: Pos)
    requires cs > 0.0 && Rectangular(grid)
    ensures p == orig || (p in cands && Free(grid, cs, r, p))
    ensures Free(grid, cs, r, orig) ==> Free(grid, cs, r, p)
  {
    var k := FirstFree(grid, cs, r, cands);
    if k < |cands| then cands[k] else orig
  }

  /**
   * The chain commits the free candidate that every earlier one fails to
   * beat, and stays at `orig` exactly when no candidate is free.
   */
  lemma ResolveIsFirstFree(grid: Grid, cs: real, r: real, orig: Pos, cands: seq<Pos>)
    requires cs > 0.0 && Rectangular(grid)
    ensures forall i :: (0 <= i < |cands| && Free(grid, cs, r, cands[i]) &&
                         (forall j :: 0 <= j < i ==> !Free(grid, cs, r, cands[j]))) ==>
      Resolve(grid, cs, r, orig, cands) == cands[i]
    ensures (forall i :: 0 <= i < |cands| ==> !Free(grid, cs, r, cands[i])) ==>
      Resolve(grid, cs, r, orig, cands) == orig
  {
  }

  /**
   * Trying the candidates of `a` and then those of `b` is trying `a` first,
   * and only when all of `a` collide, trying `b`.
   */
  lemma {:induction false} FirstFreeAppend(grid: Grid, cs: real, r: real, a: seq<Pos>, b: seq<Pos>)
    requires cs > 0.0 && Rectangular(grid)
    ensures FirstFree(grid, cs, r, a + b) ==
      if FirstFree(grid, cs, r, a) < |a| then FirstFree(grid, cs, r, a)
      else |a| + FirstFree(grid, cs, r, b)
  {
    if |a| > 0 && !Free(grid, cs, r, a[0]) {
      assert (a + b)[1..] == a[1..] + b;
      FirstFreeAppend(grid, cs, r, a[1..], b);
    } else if |a| == 0 {
      assert a + b == b;
    }
  }

  /** With the candidates of `a` then `b`, the outcome is `a`'s winner when `a` has one, and `b`'s outcome otherwise. */
  lemma ResolveAppend(grid: Grid, cs: real, r: real, orig: Pos, a: seq<Pos>, b: seq<Pos>)
    requires cs > 0.0 && Rectangular(grid)
    ensures FirstFree(grid, cs, r, a) < |a| ==> Resolve(grid, cs, r, orig, a + b) == Resolve(grid, cs, r, orig, a)
    ensures FirstFree(grid, cs, r, a) == |a| ==> Resolve(grid, cs, r, orig, a + b) == Resolve(grid, cs, r, orig, b)
  {
    FirstFreeAppend(grid, cs, r, a, b);
  }
}
