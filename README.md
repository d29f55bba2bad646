# Raycaster maze: a verified model of the grid and movement rules

This project models the game logic of a small raycaster maze game written in Rust. The parts modelled are:

- the level loader, which turns text lines into a rectangular grid of cells;
- the circle-against-grid collision test and the player's sliding move;
- the guard's pursuit step, with its line-of-sight check and its "jiggle" fallback;
- the fixed-step ray march;
- the per-tick world rules of the game loop: the spawn search, folder collection and the goal test.

Coordinates are Dafny `real`s. The trigonometry and square roots of the source are parameters:

- `cast_ray` takes its step vector `(cos·4, sin·4)` as `(sx, sy)`.
- The guard receives the Euclidean distance to the player as `dist`, under the precondition `dist >= 0 && dist² == dx² + dy²`.
- The guard's sight line uses the step `(dx/dist·4, dy/dist·4)`. This equals the cosine and sine of `atan2(dy, dx)` times 4.

Modules:

- `Results`: `Option` and `Result`.
- `Level` (`src/level.rs`): the `Cell` kinds, the blocking rule, and the parser as spec functions. `ParseLines`, `PadLines` and `ParseLine` are the loops that build the grid, each proved to compute them.
- `RealArith`: products and floors of reals, each proved in isolation.
- `Collision` (`src/player.rs`, `circle_collides`): the bounding-box scan as functions, characterised by lemmas. The first-free fallback policy `Resolve` that the movers share also lives here.
- `Player` (`src/player.rs`): the `Player` class and `TryMove`, proved against the spec function `Slide`.
- `Cast` (`src/cast.rs`): the reference march `March`/`Ray` and the loop `CastRay`, which is proved to compute it.
- `Guard` (`src/guard.rs`): the `Guard` class and `Update`, proved against the spec function `Pursue`.
- `Game` (`src/game.rs`): the spawn search, the collection step and the goal test. The `Game` class keeps the grid, the player and the folder counter.

## Model

| member | source | states |
|---|---|---|
| Level.IsBlocking | src/player.rs:53-55 | a cell stops bodies and rays exactly when it is `Wall` or `Unknown`; the five walkable kinds never do |
| Level.GlyphCell | src/level.rs:28-36 | the glyph table in both directions: ' ' is the only Floor glyph; '+', '-' and the vertical bar the only Wall glyphs; 'g', 'G', 'H', 'f' the only Goal, Guard1, Guard2, Folder glyphs; a glyph blocks exactly when it is not one of " gGHf" |
| Level.TrimCR | src/level.rs:17 | the trimmed line is a prefix of the line, does not end in '\r', and only carriage returns were removed |
| Level.MaxWidth | src/level.rs:18 | the width is at least every line's length, is attained by some line, and is 0 when there are no lines |
| Level.PadRight | src/level.rs:19-23 | a line shorter than the width is extended to exactly the width and a longer one is kept; the original line is a prefix and only spaces are added |
| Level.Parse | src/level.rs:17-40 | one row per input line; every row is as wide as the widest trimmed line, so the grid is rectangular; each cell is the glyph's kind, or `Floor` where padding was added |
| Level.ParseLines | src/level.rs:17-40 | the trim, pad and row-building loops build exactly `Parse` of the lines |
| Level.PadLines | src/level.rs:19-23 | the in-place padding loop leaves line `k` equal to `PadRight` of line `k` and keeps the line count |
| Level.ParseLine | src/level.rs:26-38 | the per-character push loop builds the row of glyph kinds of the line |
| Level.LoadLevelFromFile | src/level.rs:15-42 | a failed read gives the error message with the "Error reading level: " prefix; a successful read always parses, into a rectangular grid |
| Collision.BoxIndex | src/player.rs:46-49 | a bounding-box edge index is `floor(v / cs)` for a non-negative coordinate and saturates to 0 for a negative one |
| Collision.Clamp | src/player.rs:59-60 | the clamp lies in the span, is the value itself inside the span, and is the nearer end outside it |
| Collision.ScanColsIff | src/player.rs:51-66 | the inner loop returns true exactly when some column in its range holds an in-grid blocking cell strictly within `r` |
| Collision.ScanRowsIff | src/player.rs:50-69 | the outer loop returns true exactly when some cell of its rectangle is an in-grid blocking cell strictly within `r` |
| Collision.CircleCollidesIff | src/player.rs:43-71 | `circle_collides` is true exactly when some in-grid blocking cell of the bounding box has its clamped closest point strictly within `r`; an empty grid never collides |
| Collision.TouchInsideBox | src/player.rs:46-49 | any cell strictly within `r` lies in the scanned bounding box |
| Collision.CollidesIffOverlaps | src/player.rs:43-71 | for `r >= 0`, scanning only the bounding box agrees with testing every blocking cell of the grid |
| Collision.OwnCellClose | src/player.rs:56-63 | the cell containing the centre of a disc of positive radius is strictly within the radius |
| Collision.CentreInBlockingCell | src/player.rs:56-64 | a disc of positive radius centred inside an in-grid blocking cell collides |
| Collision.FirstFree | src/player.rs:27-39 | the index of the first collision-free candidate: every earlier one collides, and the one at the index is free |
| Collision.Resolve | src/player.rs:24-40 | the fallback chain commits either one of the candidates, which is then collision-free, or the original position; a free start stays free |
| Collision.ResolveIsFirstFree | src/player.rs:24-40 | the chain commits the free candidate all of whose predecessors collide, and stays at the original position when no candidate is free |
| Collision.FirstFreeAppend | src/guard.rs:39-59 | trying `a` then `b` finds `a`'s first free candidate if it has one, and otherwise `b`'s, offset by the length of `a` |
| Collision.ResolveAppend | src/guard.rs:39-59 | with candidates `a` then `b`, the outcome is `a`'s winner when `a` has one and `b`'s outcome otherwise |
| Player.SlideCandidates | src/player.rs:25-36 | the move tries exactly three positions: full, x only, y only |
| Player.Slide | src/player.rs:24-40 | the result is the start or a collision-free position; each coordinate is either kept or moved by its own displacement; a zero displacement does not move |
| Player.SlideIsResolve | src/player.rs:24-40 | the slide is the first-free policy over (x+dx, y+dy), (x+dx, y), (x, y+dy); a move is committed exactly when one of them is free |
| Player.Player.constructor | src/player.rs:13-22 | a new player stands at the given point facing angle 0, with radius 12, speed 150 and rotation speed 2.5 |
| Player.Player.TryMove | src/player.rs:24-40 | the in-place move leaves the position at `Slide` of the old one and changes no other field |
| Cast.Abs | src/cast.rs:33 | the absolute value is non-negative and equals the value or its negation |
| Cast.CellIndexContains | src/cast.rs:25-26 | a coordinate lies in the cell `floor(v / cs)` |
| Cast.Budget | src/cast.rs:21-24 | the number of loop turns is the least `n` with `4n >= max_dist`: it covers `max_dist`, and one turn fewer would not |
| Cast.SampleClosedForm | src/cast.rs:14-23 | after `n` steps the sample point is the origin plus `n` times the step vector |
| Cast.Ray | src/cast.rs:18-21 | a non-positive `max_dist` or an empty grid gives no hit |
| Cast.MarchHitIff | src/cast.rs:21-45 | the march returns a hit exactly when some sample taken within range is blocking with every earlier sample walkable and in the grid; the hit is that sample's record |
| Cast.HitAtSound | src/cast.rs:25-41 | a hit record names the sample's in-grid blocking cell, which contains the hit point; it carries the sample point, the distance `4n` and the face flag |
| Cast.RayHitSound | src/cast.rs:21-41 | a returned hit names an in-grid Wall or Unknown cell containing the hit point; its distance is `4n` for some `n >= 1`, with `4 <= distance < max_dist + 4`; the point is origin plus `n` steps; every earlier sample was walkable; `hit_vertical` compares the offsets from the cell's left and top edges |
| Cast.RayLeavesGrid | src/cast.rs:25-29 | a ray whose first non-walkable sample within range lies outside the grid returns no hit |
| Cast.RayRunsOut | src/cast.rs:21-45 | a ray whose every sample within range is walkable returns no hit |
| Cast.CastRay | src/cast.rs:12-46 | the stepping loop returns exactly the reference ray `Ray`, and reads the grid without changing it |
| Guard.Jiggles | src/guard.rs:55-59 | the jiggle tries exactly four positions: +x, −x, +y, −y by the jiggle amount |
| Guard.Jiggle | src/guard.rs:55-59 | the result is the start or a collision-free position one jiggle away along one axis |
| Guard.JiggleIsResolve | src/guard.rs:55-59 | the jiggle is the first-free policy over +x, −x, +y, −y |
| Guard.Pursue | src/guard.rs:23-60 | a guard within one unit of the player, or with a wall on the sight line, stays put; otherwise it ends at its start or at a collision-free position |
| Guard.SlideFirst | src/guard.rs:39-53 | when a slide candidate is free, the whole fallback order commits the slide's choice |
| Guard.JiggleAfterSlide | src/guard.rs:39-59 | when all slide candidates collide, the whole fallback order commits the jiggle's choice |
| Guard.PursueIsResolve | src/guard.rs:35-59 | a guard that sees the player from one unit or more takes the first free candidate of full step, x only, y only, +x, −x, +y, −y jiggles of `6·dt` |
| Guard.Guard.constructor | src/guard.rs:14-21 | Guard1 gets speed 70, Guard2 gets 90 and every other kind 60; every guard has radius 12 |
| Guard.Guard.Update | src/guard.rs:23-60 | the in-place step leaves the position at `Pursue` of the old one, casting the sight ray with `max_dist = dist`, and changes no other field |
| Guard.Guard.TrySlide | src/guard.rs:39-53 | the three slide attempts leave the position at `Slide` and report whether a move was committed |
| Guard.Guard.JiggleStep | src/guard.rs:55-59 | the four jiggle attempts leave the position at `Jiggle` |
| Game.RowFloorIsFirst | src/game.rs:27-33 | the inner search finds a `Floor` with no `Floor` before it in the row, or reports that the row has none |
| Game.GridFloorIsFirst | src/game.rs:26-34 | the outer search finds a `Floor` with no `Floor` before it in row-major order, or reports that there is none |
| Game.SpawnCellIsFirstFloor | src/game.rs:24-34 | the spawn cell is the first `Floor` in row-major order when the grid has one, and (1, 1) when it has none |
| Game.FindSpawn | src/game.rs:24-34 | the labelled nested loop stops with exactly the spawn cell |
| Game.SpawnPoint | src/game.rs:35 | the spawn point lies inside its cell, and the cell index computed from it in the game loop is the spawn cell again |
| Game.SpawnIsFree | src/game.rs:35 | a player of radius 12 spawned on a `Floor` cell does not collide |
| Game.Collect | src/game.rs:62-69 | an in-grid `Folder` under the player becomes `Floor` and the counter rises by one; otherwise nothing changes; no other cell changes and the grid keeps its shape |
| Game.CollectIdempotent | src/game.rs:65-67 | collecting twice on the same cell is the same as collecting once |
| Game.CollectKeepsGoals | src/game.rs:62-76 | collecting never adds or removes a `Goal` at any cell |
| Game.RowFoldersTake | src/game.rs:66 | turning a `Folder` of a row into `Floor` removes exactly one folder from the row |
| Game.GridFoldersTake | src/game.rs:66 | turning a `Folder` of the grid into `Floor` removes exactly one folder from the grid |
| Game.CollectConserves | src/game.rs:62-69 | folders left on the grid plus folders collected is the same before and after collecting |
| Game.Game.constructor | src/game.rs:24-45 | a new game keeps the loaded grid, has no folders, and places a new player with facing angle 0 and radius 12 at the centre of the spawn cell |
| Game.Game.New | src/game.rs:17-46 | a failed level read is the only error; otherwise the game holds the parsed grid and no folders, with the player at the spawn point |
| Game.Game.CollectFolder | src/game.rs:62-69 | the in-place collection step on the player's cell `(floor(x/64), floor(y/64))`, saturated at 0, leaves grid and counter at `Collect` of the old ones |
| Game.Game.CheckGoal | src/game.rs:71-76 | `success` holds exactly when the player's cell is in the grid and is `Goal` |
| Game.Game.Tick | src/game.rs:62-76 | collection followed by the goal test: the state is `Collect` of the old one, and success is the goal verdict of the grid before collecting |

## Left out

- Rendering (`src/renderer.rs`), textures (`src/texture.rs`), keyboard and mouse input (`src/events.rs`) and the entry point (`src/main.rs`) are not part of this model. They are graphics, asset I/O and input glue.
- The window, the 60 FPS target, frame timing, the success screen and the exit key of `Game::run` are not modelled. `Tick` covers only the collection step and the goal test.
- Reading the level file is not modelled. The loader receives the read's outcome: the file's lines, or the error message.
- `f32` rounding is not modelled; all arithmetic is exact over the reals.
- Trigonometry and square roots are parameters, not computed:
  - `cast_ray`'s step vector is an input;
  - the guard's distance is a parameter tied to the coordinates by `dist² == dx² + dy²`.
- Guard.Guard.Update: the source computes `atan2` and passes the angle to `cast_ray`. The model passes the equal step vector `(dx/dist·4, dy/dist·4)`, so it does not capture the rounding of `cos(atan2(…))`.
- Strings are sequences of characters. The source pads by byte length but maps characters, so the model's rectangularity holds for ASCII level files only.
- Level.TrimCR: `trim_end_matches('\r')` removes every trailing carriage return, not just one; the model follows the code.
- Collision.CircleCollides, ScanRows and ScanCols carry no postconditions of their own. Their meaning is stated by `ScanColsIff`, `ScanRowsIff`, `CircleCollidesIff` and `CollidesIffOverlaps`.
- Game.SpawnCell and Game.Reached carry no postconditions of their own. `SpawnCellIsFirstFloor` and `FindSpawn` state what `SpawnCell` means; `CheckGoal`, `Tick` and `CollectKeepsGoals` state what `Reached` means.
- Ragged grids are not modelled. Collision, ray casting and the tick rules require a rectangular grid, which the loader always produces; the source would panic indexing a short row of a ragged grid.
- The cell size is required to be positive. The game always passes 64.
- Integer widths are not modelled: cell indices and the folder counter are unbounded. The float-to-`usize` cast of the player's cell in `src/game.rs:62-63` saturates negative values to 0, and the model does the same (`BoxIndex`); saturation at the top of the `usize` range is not modelled.
- Guard.Guard.Update: the slide and jiggle attempts are two helper methods, `TrySlide` and `JiggleStep`. They perform the same tests in the same order as the single body in the source.
- The source's module wiring is not modelled:
  - `src/guard.rs` imports the private `circle_collides`;
  - `src/main.rs` declares no `guard` module;
  - `render` is called with fewer arguments than it takes.

  The guard is modelled as a standalone step over the shared collision test.
