/**
 * `cast_ray`: a fixed-step march from `(px, py)` along the step vector
 * `(sx, sy)` (the caller's `cos(angle) * 4`, `sin(angle) * 4`), stopping at
 * the first blocking cell, at the edge of the grid, or once the distance
 * travelled reaches `maxDist`.
 *
 * `March` is the reference definition, one sample per call; `CastRay` is the
 * loop, proved to compute it.
 */
module Cast {
  import opened Level
  import opened Results
  import opened RealArith

  /** The length of one step; `traveled` grows by this much per sample. */
  const Step: real := 4.0

  /** Where the ray stopped, after how far, in which cell, and which face it crossed. */
  datatype RayHit = RayHit(distance: real, x: real, y: real, mapX: int, mapY: int, hitVertical: bool)

  function Abs(v: real): (a: real)
    ensures a >= 0.0 && (a == v || a == -v)
  {
    if v < 0.0 then -v else v
  }

  /** `(v / cell_size).floor()`: the index of the cell containing coordinate `v`. */
  function CellIndex(v: real, cs: real): int
    requires cs > 0.0
  {
    (v / cs).Floor
  }

  /** Coordinate `v` lies in the cell of index `i`. */
  predicate InCell(v: real, i: int, cs: real)
  {
    i as real * cs <= v < (i as real + 1.0) * cs
  }

  /** The cell index of a coordinate is the cell it lies in. */
  lemma CellIndexContains(v: real, cs: real)
    requires cs > 0.0
    ensures InCell(v, CellIndex(v, cs), cs)
  {
    FloorSpans(v, cs);
  }

  /** The number of samples the loop can take: the least `n` with `Step * n >= maxDist`. */
  function Budget(maxDist: real): (n: nat)
    ensures Step * n as real >= maxDist
    ensures n > 0 ==> Step * (n - 1) as real < maxDist
  {
    if maxDist <= 0.0 then 0 else -((-maxDist / Step).Floor)
  }

  /** One coordinate of the sample point after `n` steps, accumulated one step at a time as the loop does. */
  function SampleX(px: real, sx: real, n: nat): real
  {
    if n == 0 then px else SampleX(px, sx, n - 1) + sx
  }

  /** The accumulated sample point is the origin plus `n` whole steps. */
  lemma {:induction false} SampleClosedForm(px: real, sx: real, n: nat)
    ensures SampleX(px, sx, n) == px + n as real * sx
  {
    if n > 0 {
      SampleClosedForm(px, sx, n - 1);
      calc {
        SampleX(px, sx, n);
      ==
        px + (n - 1) as real * sx + sx;
      ==
        px + n as real * sx;
      }
    }
  }

  /** The `n`-th sample lies in the grid on a walkable cell: the ray passes over it. */
  predicate Passes(grid: Grid, cs: real, px: real, py: real, sx: real, sy: real, n: nat)
    requires cs > 0.0 && Rectangular(grid)
  {
    var cx, cy := CellIndex(SampleX(px, sx, n), cs), CellIndex(SampleX(py, sy, n), cs);
    InGrid(grid, cx, cy) && !IsBlocking(grid[cy][cx])
  }

  /** The `n`-th sample lies in the grid on a blocking cell: the ray stops there. */
  predicate Blocks(grid: Grid, cs: real, px: real, py: real, sx: real, sy: real, n: nat)
    requires cs > 0.0 && Rectangular(grid)
  {
    var cx, cy := CellIndex(SampleX(px, sx, n), cs), CellIndex(SampleX(py, sy, n), cs);
    InGrid(grid, cx, cy) && IsBlocking(grid[cy][cx])
  }

  /**
   * The face flag: the hit point is nearer, along x, to its cell's left edge
   * than it is, along y, to the cell's top edge.
   */
  function HitsVertical(x: real, y: real, cx: int, cy: int, cs: real): bool
  {
    Abs(x - cx as real * cs) < Abs(y - cy as real * cs)
  }

  /** The hit record for a stop at the `n`-th sample. */
  function HitAt(cs: real, px: real, py: real, sx: real, sy: real, n: nat): RayHit
    requires cs > 0.0
  {
    var x, y := SampleX(px, sx, n), SampleX(py, sy, n);
    var cx, cy := CellIndex(x, cs), CellIndex(y, cs);
    RayHit(Step * n as real, x, y, cx, cy, HitsVertical(x, y, cx, cy, cs))
  }

  /** The rest of the march once `k` samples have been passed over. */
  function March(grid: Grid, cs: real, px: real, py: real, sx: real, sy: real, maxDist: real, k: nat): Option<RayHit>
    requires cs > 0.0 && Rectangular(grid)
    decreases Budget(maxDist) - k
  {
    if Step * k as real >= maxDist then None
    else
      var x, y := SampleX(px, sx, k + 1), SampleX(py, sy, k + 1);
      var cx, cy := CellIndex(x, cs), CellIndex(y, cs);
      if !InGrid(grid, cx, cy) then None
      else if !IsBlocking(grid[cy][cx]) then March(grid, cs, px, py, sx, sy, maxDist, k + 1)
      else Some(HitAt(cs, px, py, sx, sy, k + 1))
  }

  /** The outcome of casting a ray from `(px, py)` with step vector `(sx, sy)` over at most `maxDist`. */
  function Ray(grid: Grid, cs: real, px: real, py: real, sx: real, sy: real, maxDist: real): (h: Option<RayHit>)
    requires cs > 0.0 && Rectangular(grid)
    ensures maxDist <= 0.0 ==> h.None?
    ensures |grid| == 0 ==> h.None?
  {
    March(grid, cs, px, py, sx, sy, maxDist, 0)
  }

  /**
   * Sample `n` is where the march started at `k` stops on a wall: it is
   * taken before the distance runs out and every sample between passes.
   */
  ghost predicate FirstBlock(grid: Grid, cs: real, px: real, py: real, sx: real, sy: real, maxDist: real, k: nat, n: nat)
    requires cs > 0.0 && Rectangular(grid)
  {
    k < n && Step * (n - 1) as real < maxDist &&
    (forall j: nat :: k < j < n ==> Passes(grid, cs, px, py, sx, sy, j)) &&
    Blocks(grid, cs, px, py, sx, sy, n)
  }

  /** The march from `k` returns a hit exactly when some later sample is its first block, and the hit is that sample's record. */
  lemma {:induction false} MarchHitIff(grid: Grid, cs: real, px: real, py: real, sx: real, sy: real, maxDist: real, k: nat, h: RayHit)
    requires cs > 0.0 && Rectangular(grid)
    ensures March(grid, cs, px, py, sx, sy, maxDist, k) == Some(h) <==>
      exists n: nat :: FirstBlock(grid, cs, px, py, sx, sy, maxDist, k, n) && h == HitAt(cs, px, py, sx, sy, n)
    decreases Budget(maxDist) - k
  {
    if Step * k as real >= maxDist {
      forall n: nat | k < n
        ensures !FirstBlock(grid, cs, px, py, sx, sy, maxDist, k, n)
      {
        assert Step * (n - 1) as real >= Step * k as real;
      }
    } else if !Passes(grid, cs, px, py, sx, sy, k + 1) {
      forall n: nat | k + 1 < n
        ensures !FirstBlock(grid, cs, px, py, sx, sy, maxDist, k, n)
      {
        assert k < k + 1 < n;
      }
      if Blocks(grid, cs, px, py, sx, sy, k + 1) {
        assert FirstBlock(grid, cs, px, py, sx, sy, maxDist, k, k + 1);
      }
    } else {
      MarchHitIff(grid, cs, px, py, sx, sy, maxDist, k + 1, h);
      assert !Blocks(grid, cs, px, py, sx, sy, k + 1);
      if n: nat :| FirstBlock(grid, cs, px, py, sx, sy, maxDist, k + 1, n) && h == HitAt(cs, px, py, sx, sy, n) {
        assert FirstBlock(grid, cs, px, py, sx, sy, maxDist, k, n);
      }
      if n: nat :| FirstBlock(grid, cs, px, py, sx, sy, maxDist, k, n) && h == HitAt(cs, px, py, sx, sy, n) {
        assert n != k + 1;
        assert FirstBlock(grid, cs, px, py, sx, sy, maxDist, k + 1, n);
      }
    }
  }

  /** The record of a stop at a blocking sample names that sample's in-grid blocking cell, which contains the hit point. */
  lemma HitAtSound(grid: Grid, cs: real, px: real, py: real, sx: real, sy: real, n: nat)
    requires cs > 0.0 && Rectangular(grid)
    requires Blocks(grid, cs, px, py, sx, sy, n)
    ensures var h := HitAt(cs, px, py, sx, sy, n);
      InGrid(grid, h.mapX, h.mapY) && IsBlocking(grid[h.mapY][h.mapX]) &&
      InCell(h.x, h.mapX, cs) && InCell(h.y, h.mapY, cs) &&
      h.x == SampleX(px, sx, n) && h.y == SampleX(py, sy, n) && h.distance == Step * n as real &&
      h.hitVertical == HitsVertical(h.x, h.y, h.mapX, h.mapY, cs)
  {
    CellIndexContains(SampleX(px, sx, n), cs);
    CellIndexContains(SampleX(py, sy, n), cs);
  }

  /**
   * A ray that returns a hit stopped on an in-grid blocking cell containing
   * the hit point, after a whole number of steps taken before the distance
   * ran out, having passed only walkable in-grid cells before it; the face
   * flag compares the offsets from the cell's left and top edges.
   */
  lemma RayHitSound(grid: Grid, cs: real, px: real, py: real, sx: real, sy: real, maxDist: real, h: RayHit)
    requires cs > 0.0 && Rectangular(grid)
    requires Ray(grid, cs, px, py, sx, sy, maxDist) == Some(h)
    ensures InGrid(grid, h.mapX, h.mapY) && IsBlocking(grid[h.mapY][h.mapX])
    ensures InCell(h.x, h.mapX, cs) && InCell(h.y, h.mapY, cs)
    ensures h.hitVertical == HitsVertical(h.x, h.y, h.mapX, h.mapY, cs)
    ensures Step <= h.distance < maxDist + Step
    ensures exists n: nat :: 1 <= n && h.distance == Step * n as real &&
                             h.x == SampleX(px, sx, n) && h.y == SampleX(py, sy, n) &&
                             forall j: nat :: 1 <= j < n ==> Passes(grid, cs, px, py, sx, sy, j)
  {
    MarchHitIff(grid, cs, px, py, sx, sy, maxDist, 0, h);
    var n: nat :| FirstBlock(grid, cs, px, py, sx, sy, maxDist, 0, n) && h == HitAt(cs, px, py, sx, sy, n);
    HitAtSound(grid, cs, px, py, sx, sy, n);
  }

  /**
   * A march from `k` whose samples up to `n` pass, and whose `n`-th sample,
   * taken within range, leaves the grid, misses.
   */
  lemma {:induction false} MarchLeavesGrid(grid: Grid, cs: real, px: real, py: real, sx: real, sy: real, maxDist: real, k: nat, n: nat)
    requires cs > 0.0 && Rectangular(grid)
    requires k < n && Step * (n - 1) as real < maxDist
    requires forall j: nat :: k < j < n ==> Passes(grid, cs, px, py, sx, sy, j)
    requires !InGrid(grid, CellIndex(SampleX(px, sx, n), cs), CellIndex(SampleX(py, sy, n), cs))
    ensures March(grid, cs, px, py, sx, sy, maxDist, k) == None
    decreases n - k
  {
    assert Step * k as real < maxDist;
    if k + 1 < n {
      assert Passes(grid, cs, px, py, sx, sy, k + 1);
      MarchLeavesGrid(grid, cs, px, py, sx, sy, maxDist, k + 1, n);
    }
  }

  /** A ray whose first sample that is not walkable lies outside the grid, within range, misses. */
  lemma RayLeavesGrid(grid: Grid, cs: real, px: real, py: real, sx: real, sy: real, maxDist: real, n: nat)
    requires cs > 0.0 && Rectangular(grid)
    requires 1 <= n && Step * (n - 1) as real < maxDist
    requires forall j: nat :: 1 <= j < n ==> Passes(grid, cs, px, py, sx, sy, j)
    requires !InGrid(grid, CellIndex(SampleX(px, sx, n), cs), CellIndex(SampleX(py, sy, n), cs))
    ensures Ray(grid, cs, px, py, sx, sy, maxDist) == None
  {
    MarchLeavesGrid(grid, cs, px, py, sx, sy, maxDist, 0, n);
  }

  /** A march from `k` whose every remaining sample within range passes runs out of distance and misses. */
  lemma {:induction false} MarchRunsOut(grid: Grid, cs: real, px: real, py: real, sx: real, sy: real, maxDist: real, k: nat)
    requires cs > 0.0 && Rectangular(grid)
    requires forall j: nat :: k < j <= Budget(maxDist) ==> Passes(grid, cs, px, py, sx, sy, j)
    ensures March(grid, cs, px, py, sx, sy, maxDist, k) == None
    decreases Budget(maxDist) - k
  {
    if Step * k as real < maxDist {
      assert k + 1 <= Budget(maxDist);
      assert Passes(grid, cs, px, py, sx, sy, k + 1);
      MarchRunsOut(grid, cs, px, py, sx, sy, maxDist, k + 1);
    }
  }

  /** A ray whose every sample within range is walkable runs out of distance and misses. */
  lemma RayRunsOut(grid: Grid, cs: real, px: real, py: real, sx: real, sy: real, maxDist: real)
    requires cs > 0.0 && Rectangular(grid)
    requires forall j: nat :: 1 <= j <= Budget(maxDist) ==> Passes(grid, cs, px, py, sx, sy, j)
    ensures Ray(grid, cs, px, py, sx, sy, maxDist) == None
  {
    MarchRunsOut(grid, cs, px, py, sx, sy, maxDist, 0);
  }

  /**
   * `cast_ray`: the stepping loop, advancing the sample point and the
   * distance travelled by one step per iteration.
   */
  method CastRay(grid: Grid, cs: real, px: real, py: real, sx: real, sy: real, maxDist: real) returns (hit: Option<RayHit>)
    requires cs > 0.0 && Rectangular(grid)
    ensures hit == Ray(grid, cs, px, py, sx, sy, maxDist)
  {
    var rx, ry := px, py;
    var rows, cols := |grid|, Cols(grid);
    var traveled := 0.0;
    ghost var k: nat := 0;
    while traveled < maxDist
      invariant traveled == Step * k as real
      invariant rx == SampleX(px, sx, k) && ry == SampleX(py, sy, k)
      invariant March(grid, cs, px, py, sx, sy, maxDist, k) == Ray(grid, cs, px, py, sx, sy, maxDist)
      decreases Budget(maxDist) - k
    {
      rx := rx + sx;
      ry := ry + sy;
      traveled := traveled + Step;
      k := k + 1;
      var cx := (rx / cs).Floor;
      var cy := (ry / cs).Floor;
      assert cx == CellIndex(SampleX(px, sx, k), cs) && cy == CellIndex(SampleX(py, sy, k), cs);
      if cx < 0 || cy < 0 || cx >= cols || cy >= rows {
        assert !InGrid(grid, cx, cy);
        return None;
      }
      match grid[cy][cx]
      case Floor | Goal | Folder | Guard1 | Guard2 =>
      case _ =>
        var hitVertical := HitsVertical(rx, ry, cx, cy, cs);
        assert RayHit(traveled, rx, ry, cx, cy, hitVertical) == HitAt(cs, px, py, sx, sy, k);
        return Some(RayHit(traveled, rx, ry, cx, cy, hitVertical));
    }
    return None;
  }
}
