/**
 * One pursuit step of a guard: stay put when the player is within one unit
 * or out of sight, otherwise step toward the player with the player's
 * sliding fallback, and when even sliding fails, nudge ("jiggle") by a small
 * amount along +x, -x, +y, -y, in that order.
 *
 * The distance to the player is a parameter standing for the square root
 * the source computes; the sight line is the modelled ray cast.
 */
module Guard {
  import opened Level
  import opened RealArith
  import opened Results
  import opened Collision
  import opened Cast
  import opened Player

  /** The jiggle positions, in the order they are tried. */
  function Jiggles(p: Pos, j: real): (cands: seq<Pos>)
    ensures |cands| == 4
  {
    [Pos(p.x + j, p.y), Pos(p.x - j, p.y), Pos(p.x, p.y + j), Pos(p.x, p.y - j)]
  }

  /** The first free jiggle position, or `p` itself when all four collide. */
  function Jiggle(grid: Grid, cs: real, r: real, p: Pos, j: real): (q: Pos)
    requires cs > 0.0 && Rectangular(grid)
    ensures q == p || Free(grid, cs, r, q)
    ensures (q.x == p.x && (q.y == p.y || q.y == p.y + j || q.y == p.y - j)) ||
            (q.y == p.y && (q.x == p.x + j || q.x == p.x - j))
  {
    if Free(grid, cs, r, Pos(p.x + j, p.y)) then Pos(p.x + j, p.y)
    else if Free(grid, cs, r, Pos(p.x - j, p.y)) then Pos(p.x - j, p.y)
    else if Free(grid, cs, r, Pos(p.x, p.y + j)) then Pos(p.x, p.y + j)
    else if Free(grid, cs, r, Pos(p.x, p.y - j)) then Pos(p.x, p.y - j)
    else p
  }

  /** The jiggle is the first-free policy over its four positions. */
  lemma JiggleIsResolve(grid: Grid, cs: real, r: real, p: Pos, j: real)
    requires cs > 0.0 && Rectangular(grid)
    ensures Jiggle(grid, cs, r, p, j) == Resolve(grid, cs, r, p, Jiggles(p, j))
  {
    var c := Jiggles(p, j);
    var c1 := c[1..];
    var c2 := c1[1..];
    var c3 := c2[1..];
    assert c1 == [c[1], c[2], c[3]] && c2 == [c[2], c[3]] && c3 == [c[3]] && c3[1..] == [];
    if Free(grid, cs, r, c[0]) {
      assert FirstFree(grid, cs, r, c) == 0;
    } else if Free(grid, cs, r, c[1]) {
      assert FirstFree(grid, cs, r, c1) == 0;
    } else if Free(grid, cs, r, c[2]) {
      assert FirstFree(grid, cs, r, c2) == 0;
      assert FirstFree(grid, cs, r, c) == 2;
    } else if Free(grid, cs, r, c[3]) {
      assert FirstFree(grid, cs, r, c3) == 0;
      assert FirstFree(grid, cs, r, c1) == 2;
      assert FirstFree(grid, cs, r, c) == 3;
    } else {
      assert FirstFree(grid, cs, r, c3) == 1;
      assert FirstFree(grid, cs, r, c1) == 3;
      assert FirstFree(grid, cs, r, c) == 4;
    }
  }

  /**
   * The sight line from `g` toward `target`, `dist` away: a ray whose step
   * is the unit direction (the cosine and sine of the bearing) times the
   * step length, cast no farther than the target.
   */
  function SightRay(grid: Grid, cs: real, g: Pos, target: Pos, dist: real): Option<RayHit>
    requires cs > 0.0 && Rectangular(grid) && dist > 0.0
  {
    Ray(grid, cs, g.x, g.y, (target.x - g.x) / dist * Step, (target.y - g.y) / dist * Step, dist)
  }

  /** The displacement of one pursuit step: `speed * dt` along the direction to the target, the divisor kept at least 0.0001. */
  function Velocity(g: Pos, target: Pos, dist: real, speed: real, dt: real): Pos
  {
    var d := if dist < 0.0001 then 0.0001 else dist;
    Pos((target.x - g.x) / d * speed * dt, (target.y - g.y) / d * speed * dt)
  }

  /**
   * Where a guard of the given speed and radius at `g` ends up after one
   * step of `dt` toward `target`, which is `dist` away.
   */
  function Pursue(grid: Grid, cs: real, g: Pos, target: Pos, dist: real, speed: real, radius: real, dt: real): (p: Pos)
    requires cs > 0.0 && Rectangular(grid)
    ensures dist < 1.0 ==> p == g
    ensures dist >= 1.0 && SightRay(grid, cs, g, target, dist).Some? ==> p == g
    ensures p == g || Free(grid, cs, radius, p)
  {
    if dist < 1.0 then g
    else if SightRay(grid, cs, g, target, dist).Some? then g
    else
      var v := Velocity(g, target, dist, speed, dt);
      if CanSlide(grid, cs, radius, g, v) then Slide(grid, cs, radius, g, v)
      else Jiggle(grid, cs, radius, g, 6.0 * dt)
  }

  /** When a slide candidate is free, the whole fallback order commits what the slide commits. */
  lemma SlideFirst(grid: Grid, cs: real, r: real, g: Pos, v: Pos, j: real)
    requires cs > 0.0 && Rectangular(grid)
    requires CanSlide(grid, cs, r, g, v)
    ensures Resolve(grid, cs, r, g, SlideCandidates(g, v) + Jiggles(g, j)) == Slide(grid, cs, r, g, v)
  {
    SlideIsResolve(grid, cs, r, g, v);
    ResolveAppend(grid, cs, r, g, SlideCandidates(g, v), Jiggles(g, j));
  }

  /** When every slide candidate collides, the whole fallback order commits what the jiggle commits. */
  lemma JiggleAfterSlide(grid: Grid, cs: real, r: real, g: Pos, v: Pos, j: real)
    requires cs > 0.0 && Rectangular(grid)
    requires !CanSlide(grid, cs, r, g, v)
    ensures Resolve(grid, cs, r, g, SlideCandidates(g, v) + Jiggles(g, j)) == Jiggle(grid, cs, r, g, j)
  {
    SlideIsResolve(grid, cs, r, g, v);
    ResolveAppend(grid, cs, r, g, SlideCandidates(g, v), Jiggles(g, j));
    JiggleIsResolve(grid, cs, r, g, j);
  }

  /**
   * A guard with the target in sight and at least one unit away takes the
   * first free position of the whole fallback order: full step, x part,
   * y part, then the four jiggles of `6 * dt`.
   */
  lemma PursueIsResolve(grid: Grid, cs: real, g: Pos, target: Pos, dist: real, speed: real, radius: real, dt: real)
    requires cs > 0.0 && Rectangular(grid)
    requires dist >= 1.0 && SightRay(grid, cs, g, target, dist).None?
    ensures Pursue(grid, cs, g, target, dist, speed, radius, dt) ==
      Resolve(grid, cs, radius, g, SlideCandidates(g, Velocity(g, target, dist, speed, dt)) + Jiggles(g, 6.0 * dt))
  {
    var v := Velocity(g, target, dist, speed, dt);
    var p := Pursue(grid, cs, g, target, dist, speed, radius, dt);
    if CanSlide(grid, cs, radius, g, v) {
      assert p == Slide(grid, cs, radius, g, v);
      SlideFirst(grid, cs, radius, g, v, 6.0 * dt);
    } else {
      assert p == Jiggle(grid, cs, radius, g, 6.0 * dt);
      JiggleAfterSlide(grid, cs, radius, g, v, 6.0 * dt);
    }
  }

  class Guard {
    var x: real
    var y: real
    var kind: Cell
    var speed: real
    var radius: real

    /** `Guard::new`: the speed depends on the kind; every guard has radius 12. */
    constructor (x0: real, y0: real, k: Cell)
      ensures x == x0 && y == y0 && kind == k && radius == 12.0
      ensures k == Guard1 ==> speed == 70.0
      ensures k == Guard2 ==> speed == 90.0
      ensures k != Guard1 && k != Guard2 ==> speed == 60.0
    {
      x, y, kind := x0, y0, k;
      speed := match k
        case Guard1 => 70.0
        case Guard2 => 90.0
        case _ => 60.0;
      radius := 12.0;
    }

    /**
     * `update`: one pursuit step toward the player at `(playerX, playerY)`.
     * `dist` is the Euclidean distance to the player. Only the position
     * changes.
     */
    method Update(playerX: real, playerY: real, dt: real, grid: Grid, cs: real, dist: real)
      requires cs > 0.0 && Rectangular(grid)
      requires dist >= 0.0 && Sq(dist) == Sq(playerX - x) + Sq(playerY - y)
      modifies this`x, this`y
      ensures Pos(x, y) == Pursue(grid, cs, Pos(old(x), old(y)), Pos(playerX, playerY), dist, speed, radius, dt)
    {
      var dx := playerX - x;
      var dy := playerY - y;
      if dist < 1.0 {
        return;
      }
      var hit := CastRay(grid, cs, x, y, dx / dist * Step, dy / dist * Step, dist);
      assert hit == SightRay(grid, cs, Pos(x, y), Pos(playerX, playerY), dist);
      if hit.Some? {
        return;
      }
      var g := Pos(x, y);
      var v := Velocity(g, Pos(playerX, playerY), dist, speed, dt);
      var moved := TrySlide(v.x, v.y, grid, cs);
      if !moved {
        assert Pos(x, y) == g;
        JiggleStep(6.0 * dt, grid, cs);
        assert Pos(x, y) == Jiggle(grid, cs, radius, g, 6.0 * dt);
      }
    }

    /** The full, x-only and y-only attempts of `update`; `moved` says whether one was committed. */
    method TrySlide(vx: real, vy: real, grid: Grid, cs: real) returns (moved: bool)
      requires cs > 0.0 && Rectangular(grid)
      modifies this`x, this`y
      ensures moved == CanSlide(grid, cs, radius, Pos(old(x), old(y)), Pos(vx, vy))
      ensures Pos(x, y) == Slide(grid, cs, radius, Pos(old(x), old(y)), Pos(vx, vy))
    {
      if !CircleCollides(x + vx, y + vy, radius, grid, cs) {
        x := x + vx;
        y := y + vy;
        return true;
      }
      if !CircleCollides(x + vx, y, radius, grid, cs) {
        x := x + vx;
        return true;
      }
      if !CircleCollides(x, y + vy, radius, grid, cs) {
        y := y + vy;
        return true;
      }
      return false;
    }

    /** The jiggle attempts of `update`, by `jiggle` along +x, -x, +y, -y. */
    method JiggleStep(jiggle: real, grid: Grid, cs: real)
      requires cs > 0.0 && Rectangular(grid)
      modifies this`x, this`y
      ensures Pos(x, y) == Jiggle(grid, cs, radius, Pos(old(x), old(y)), jiggle)
    {
      if !CircleCollides(x + jiggle, y, radius, grid, cs) {
        x := x + jiggle;
      } else if !CircleCollides(x - jiggle, y, radius, grid, cs) {
        x := x - jiggle;
      } else if !CircleCollides(x, y + jiggle, radius, grid, cs) {
        y := y + jiggle;
      } else if !CircleCollides(x, y - jiggle, radius, grid, cs) {
        y := y - jiggle;
      }
    }
  }
}
