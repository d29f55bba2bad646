/**
 * The player's body and its sliding move: try the full displacement, then
 * the x part alone, then the y part alone, and otherwise stay put.
 */
module Player {
  import opened Level
  import opened Collision

  /** The positions `try_move` tests, in the order it tests them. */
  function SlideCandidates(p: Pos, d: Pos): (cands: seq<Pos>)
    ensures |cands| == 3
  {
    [Pos(p.x + d.x, p.y + d.y), Pos(p.x + d.x, p.y), Pos(p.x, p.y + d.y)]
  }

  /**
   * Where a body of radius `r` at `p` ends up after trying to move by `d`:
   * the whole move if it is free, else the x part if that is free, else the
   * y part if that is free, else nowhere.
   */
  function Slide(grid: Grid, cs: real, r: real, p: Pos, d: Pos): (q: Pos)
    requires cs > 0.0 && Rectangular(grid)
    ensures q == p || Free(grid, cs, r, q)
    ensures q.x == p.x || q.x == p.x + d.x
    ensures q.y == p.y || q.y == p.y + d.y
    ensures d == Pos(0.0, 0.0) ==> q == p
  {
    var full, xOnly, yOnly := Pos(p.x + d.x, p.y + d.y), Pos(p.x + d.x, p.y), Pos(p.x, p.y + d.y);
    if Free(grid, cs, r, full) then full
    else if Free(grid, cs, r, xOnly) then xOnly
    else if Free(grid, cs, r, yOnly) then yOnly
    else p
  }

  /** Some slide candidate is free, so `try_move` commits a move. */
  predicate CanSlide(grid: Grid, cs: real, r: real, p: Pos, d: Pos)
    requires cs > 0.0 && Rectangular(grid)
  {
    Free(grid, cs, r, Pos(p.x + d.x, p.y + d.y)) || Free(grid, cs, r, Pos(p.x + d.x, p.y)) ||
    Free(grid, cs, r, Pos(p.x, p.y + d.y))
  }

  /**
   * The slide is the first-free policy over its three candidates, and it
   * commits one of them exactly when one is free.
   */
  lemma SlideIsResolve(grid: Grid, cs: real, r: real, p: Pos, d: Pos)
    requires cs > 0.0 && Rectangular(grid)
    ensures Slide(grid, cs, r, p, d) == Resolve(grid, cs, r, p, SlideCandidates(p, d))
    ensures CanSlide(grid, cs, r, p, d) <==> FirstFree(grid, cs, r, SlideCandidates(p, d)) < 3
  {
    var c := SlideCandidates(p, d);
    var c1 := c[1..];
    var c2 := c1[1..];
    assert c1 == [c[1], c[2]] && c2 == [c[2]] && c2[1..] == [];
    if Free(grid, cs, r, c[0]) {
      assert FirstFree(grid, cs, r, c) == 0;
    } else if Free(grid, cs, r, c[1]) {
      assert FirstFree(grid, cs, r, c1) == 0;
    } else if Free(grid, cs, r, c[2]) {
      assert FirstFree(grid, cs, r, c2) == 0;
      assert FirstFree(grid, cs, r, c) == 2;
    } else {
      assert FirstFree(grid, cs, r, c2) == 1;
      assert FirstFree(grid, cs, r, c) == 3;
    }
  }

  class Player {
    var x: real
    var y: real
    /** Facing angle in radians. */
    var dir: real
    var radius: real
    var speed: real
    var rotSpeed: real

    /** `Player::new`: a player at `(x0, y0)` facing angle 0, with the fixed body and speeds. */
    constructor (x0: real, y0: real)
      ensures x == x0 && y == y0
      ensures dir == 0.0 && radius == 12.0 && speed == 150.0 && rotSpeed == 2.5
    {
      x, y := x0, y0;
      dir := 0.0;
      radius := 12.0;
      speed := 150.0;
      rotSpeed := 2.5;
    }

    /**
     * `try_move`: the three-step fallback, updating the position in place.
     * Only `x` and `y` can change.
     */
    method TryMove(dx: real, dy: real, grid: Grid, cs: real)
      requires cs > 0.0 && Rectangular(grid)
      modifies this`x, this`y
      ensures Pos(x, y) == Slide(grid, cs, radius, Pos(old(x), old(y)), Pos(dx, dy))
    {
      var nx := x + dx;
      var ny := y + dy;
      if !CircleCollides(nx, ny, radius, grid, cs) {
        x := nx;
        y := ny;
        return;
      }
      if !CircleCollides(nx, y, radius, grid, cs) {
        x := nx;
        return;
      }
      if !CircleCollides(x, ny, radius, grid, cs) {
        y := ny;
        return;
      }
    }
  }
}
