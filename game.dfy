/**
 * The world rules of the game loop: where the player spawns, how a folder
 * under the player is collected, and when the goal is reached.
 *
 * The window, the frame timing, input polling and drawing are not part of
 * this model; a tick here is the collection step followed by the goal test.
 */
module Game {
  import opened Level
  import opened Results
  import opened Collision
  import opened Cast
  import Player

  /** The side of one cell in world units, as the game loop and the spawn point use it. */
  const CellSize: real := 64.0

  // ---------------------------------------------------------------------------
  // Spawn search

  /** The first `Floor` of `row` at index `c` or later. */
  function RowFloor(row: seq<Cell>, c: nat): (k: Option<nat>)
    decreases |row| - c
  {
    if c >= |row| then None
    else if row[c] == Floor then Some(c)
    else RowFloor(row, c + 1)
  }

  /** The first `Floor` of the grid in row-major order, starting at row `r`, as `(col, row)`. */
  function GridFloor(grid: Grid, r: nat): (k: Option<(nat, nat)>)
    decreases |grid| - r
  {
    if r >= |grid| then None
    else match RowFloor(grid[r], 0)
      case Some(c) => Some((c, r))
      case None => GridFloor(grid, r + 1)
  }

  /** The spawn cell `(col, row)`: the first `Floor` in row-major order, or `(1, 1)` when there is none. */
  function SpawnCell(grid: Grid): (cell: (nat, nat))
  {
    match GridFloor(grid, 0)
    case Some(cell) => cell
    case None => (1, 1)
  }

  /** Cell `(col, row)` is a `Floor` of the grid. */
  predicate FloorAt(grid: Grid, col: int, row: int)
  {
    0 <= row < |grid| && 0 <= col < |grid[row]| && grid[row][col] == Floor
  }

  /** `(col, row)` comes before `(c0, r0)` in row-major order. */
  predicate Before(col: int, row: int, c0: int, r0: int)
  {
    row < r0 || (row == r0 && col < c0)
  }

  lemma {:induction false} RowFloorIsFirst(row: seq<Cell>, c: nat)
    ensures RowFloor(row, c).Some? ==> (
      var k := RowFloor(row, c).value;
      c <= k < |row| && row[k] == Floor && forall j :: c <= j < k ==> row[j] != Floor)
    ensures RowFloor(row, c).None? ==> forall j :: c <= j < |row| ==> row[j] != Floor
    decreases |row| - c
  {
    if c < |row| && row[c] != Floor {
      RowFloorIsFirst(row, c + 1);
    }
  }

  lemma {:induction false} GridFloorIsFirst(grid: Grid, r: nat)
    ensures GridFloor(grid, r).Some? ==> (
      var (col, row) := GridFloor(grid, r).value;
      r <= row && FloorAt(grid, col, row) &&
      forall i, j :: r <= i < |grid| && 0 <= j < |grid[i]| && Before(j, i, col, row) ==> grid[i][j] != Floor)
    ensures GridFloor(grid, r).None? ==> forall i, j :: r <= i < |grid| && 0 <= j < |grid[i]| ==> grid[i][j] != Floor
    decreases |grid| - r
  {
    if r < |grid| {
      RowFloorIsFirst(grid[r], 0);
      if RowFloor(grid[r], 0).None? {
        GridFloorIsFirst(grid, r + 1);
      }
    }
  }

  /**
   * The spawn cell is a `Floor` with no `Floor` before it in row-major
   * order; only a grid without any `Floor` spawns at `(1, 1)`.
   */
  lemma SpawnCellIsFirstFloor(grid: Grid)
    ensures (exists i, j :: FloorAt(grid, j, i)) ==>
      FloorAt(grid, SpawnCell(grid).0, SpawnCell(grid).1) &&
      forall i, j :: FloorAt(grid, j, i) ==> !Before(j, i, SpawnCell(grid).0, SpawnCell(grid).1)
    ensures (forall i, j :: !FloorAt(grid, j, i)) ==> SpawnCell(grid) == (1, 1)
  {
    GridFloorIsFirst(grid, 0);
  }

  /** The labelled search of `Game::new`: rows in order, cells in order, stop at the first `Floor`. */
  method FindSpawn(grid: Grid) returns (col: nat, row: nat)
    ensures (col, row) == SpawnCell(grid)
  {
    col, row := 1, 1;
    var r := 0;
    while r < |grid|
      invariant 0 <= r <= |grid|
      invariant GridFloor(grid, 0) == GridFloor(grid, r)
      decreases |grid| - r
    {
      var c := 0;
      while c < |grid[r]|
        invariant 0 <= c <= |grid[r]|
        invariant RowFloor(grid[r], 0) == RowFloor(grid[r], c)
        decreases |grid[r]| - c
      {
        if grid[r][c] == Floor {
          return c, r;
        }
        c := c + 1;
      }
      r := r + 1;
    }
  }

  /** The centre of cell `(col, row)`, where the player is placed. */
  function SpawnPoint(col: nat, row: nat): (p: Pos)
    ensures InCell(p.x, col, CellSize) && InCell(p.y, row, CellSize)
    ensures BoxIndex(p.x, CellSize) == col && BoxIndex(p.y, CellSize) == row
  {
    Pos(col as real * CellSize + CellSize / 2.0, row as real * CellSize + CellSize / 2.0)
  }

  /**
   * A player spawned on a `Floor` cell does not collide: its body of radius
   * 12 stays within the spawn cell, which is walkable.
   */
  lemma SpawnIsFree(grid: Grid, col: nat, row: nat)
    requires Rectangular(grid) && InGrid(grid, col, row) && grid[row][col] == Floor
    ensures Free(grid, CellSize, 12.0, SpawnPoint(col, row))
  {
    var p := SpawnPoint(col, row);
    CircleCollidesIff(p.x, p.y, 12.0, grid, CellSize);
    assert BoxIndex(p.x - 12.0, CellSize) == col && BoxIndex(p.x + 12.0, CellSize) == col;
    assert BoxIndex(p.y - 12.0, CellSize) == row && BoxIndex(p.y + 12.0, CellSize) == row;
  }

  // ---------------------------------------------------------------------------
  // Folder collection and the goal

  /** The part of the game state the tick rules change: the grid and the folder counter. */
  datatype World = World(grid: Grid, folders: nat)

  /**
   * The collection step on the player's cell `(gx, gy)`: an in-grid
   * `Folder` becomes `Floor` and the counter goes up by one; otherwise
   * nothing changes.
   */
  function Collect(w: World, gx: nat, gy: nat): (w': World)
    requires Rectangular(w.grid)
    ensures |w'.grid| == |w.grid| && Rectangular(w'.grid)
    ensures forall i :: 0 <= i < |w.grid| ==> |w'.grid[i]| == |w.grid[i]|
    ensures InGrid(w.grid, gx, gy) && w.grid[gy][gx] == Folder ==>
      w'.folders == w.folders + 1 && w'.grid[gy][gx] == Floor
    ensures !(InGrid(w.grid, gx, gy) && w.grid[gy][gx] == Folder) ==> w' == w
    ensures forall i, j :: 0 <= i < |w.grid| && 0 <= j < |w.grid[i]| && (i != gy || j != gx) ==>
      w'.grid[i][j] == w.grid[i][j]
  {
    if InGrid(w.grid, gx, gy) && w.grid[gy][gx] == Folder then
      World(w.grid[gy := w.grid[gy][gx := Floor]], w.folders + 1)
    else w
  }

  /** Collecting twice on the same cell collects once. */
  lemma CollectIdempotent(w: World, gx: nat, gy: nat)
    requires Rectangular(w.grid)
    ensures Collect(Collect(w, gx, gy), gx, gy) == Collect(w, gx, gy)
  {
  }

  /** The goal test on the player's cell `(gx, gy)`: in the grid and a `Goal`. */
  predicate Reached(grid: Grid, gx: nat, gy: nat)
    requires Rectangular(grid)
  {
    InGrid(grid, gx, gy) && grid[gy][gx] == Goal
  }

  /** Collecting a folder never creates or removes a goal, anywhere. */
  lemma CollectKeepsGoals(w: World, gx: nat, gy: nat, x: nat, y: nat)
    requires Rectangular(w.grid)
    ensures Reached(Collect(w, gx, gy).grid, x, y) == Reached(w.grid, x, y)
  {
  }

  /** The folders left in one row. */
  function RowFolders(row: seq<Cell>): nat
  {
    if |row| == 0 then 0
    else RowFolders(row[..|row| - 1]) + (if row[|row| - 1] == Folder then 1 else 0)
  }

  /** The folders left in the grid. */
  function GridFolders(grid: Grid): nat
  {
    if |grid| == 0 then 0
    else GridFolders(grid[..|grid| - 1]) + RowFolders(grid[|grid| - 1])
  }

  lemma {:induction false} RowFoldersTake(row: seq<Cell>, j: nat)
    requires j < |row| && row[j] == Folder
    ensures RowFolders(row[j := Floor]) + 1 == RowFolders(row)
    decreases |row|
  {
    var n := |row| - 1;
    if j == n {
      assert row[j := Floor][..n] == row[..n];
    } else {
      assert row[j := Floor][..n] == row[..n][j := Floor];
      RowFoldersTake(row[..n], j);
    }
  }

  lemma {:induction false} GridFoldersTake(grid: Grid, i: nat, j: nat)
    requires i < |grid| && j < |grid[i]| && grid[i][j] == Folder
    ensures GridFolders(grid[i := grid[i][j := Floor]]) + 1 == GridFolders(grid)
    decreases |grid|
  {
    var n := |grid| - 1;
    var g' := grid[i := grid[i][j := Floor]];
    if i == n {
      assert g'[..n] == grid[..n];
      RowFoldersTake(grid[i], j);
    } else {
      assert g'[..n] == grid[..n][i := grid[i][j := Floor]];
      GridFoldersTake(grid[..n], i, j);
    }
  }

  /** Folders only move from the grid to the counter: their total is kept. */
  lemma CollectConserves(w: World, gx: nat, gy: nat)
    requires Rectangular(w.grid)
    ensures GridFolders(Collect(w, gx, gy).grid) + Collect(w, gx, gy).folders == GridFolders(w.grid) + w.folders
  {
    if InGrid(w.grid, gx, gy) && w.grid[gy][gx] == Folder {
      GridFoldersTake(w.grid, gy, gx);
    }
  }

  class Game {
    var grid: Grid
    var player: Player.Player
    var foldersCollected: nat

    /** The grid is rectangular, as the loader makes it. */
    ghost predicate Valid()
      reads this
    {
      Rectangular(grid)
    }

    /** The part of `Game::new` after loading: spawn the player on the first `Floor`, no folders yet. */
    constructor (level: Grid)
      requires Rectangular(level)
      ensures Valid() && grid == level && foldersCollected == 0 && fresh(player)
      ensures Pos(player.x, player.y) == SpawnPoint(SpawnCell(level).0, SpawnCell(level).1)
      ensures player.dir == 0.0 && player.radius == 12.0
    {
      var col, row := FindSpawn(level);
      var p := SpawnPoint(col, row);
      grid := level;
      player := new Player.Player(p.x, p.y);
      foldersCollected := 0;
    }

    /** `Game::new`: a failed level read is the only error. */
    static method New(contents: Result<seq<string>, string>) returns (r: Result<Game, string>)
      ensures contents.Err? ==> r == Err(ReadErrorPrefix + contents.error)
      ensures contents.Ok? ==> r.Ok? && fresh(r.value) && fresh(r.value.player)
      ensures contents.Ok? ==> r.value.Valid() && r.value.grid == Parse(contents.value) && r.value.foldersCollected == 0
      ensures contents.Ok? ==>
        Pos(r.value.player.x, r.value.player.y) == SpawnPoint(SpawnCell(r.value.grid).0, SpawnCell(r.value.grid).1)
    {
      var loaded := LoadLevelFromFile(contents);
      if loaded.Err? {
        return Err(loaded.error);
      }
      var g := new Game(loaded.value);
      return Ok(g);
    }

    /** The collection step of a tick, on the cell under the player. */
    method CollectFolder()
      requires Valid()
      modifies this`grid, this`foldersCollected
      ensures Valid()
      ensures World(grid, foldersCollected) ==
        Collect(World(old(grid), old(foldersCollected)), BoxIndex(player.x, CellSize), BoxIndex(player.y, CellSize))
    {
      var gx := BoxIndex(player.x, CellSize);
      var gy := BoxIndex(player.y, CellSize);
      if gy < |grid| && gx < |grid[0]| {
        if grid[gy][gx] == Folder {
          grid := grid[gy := grid[gy][gx := Floor]];
          foldersCollected := foldersCollected + 1;
        }
      }
    }

    /** The goal test of a tick: `success` exactly when the cell under the player is an in-grid `Goal`. */
    method CheckGoal() returns (success: bool)
      requires Valid()
      ensures success <==> Reached(grid, BoxIndex(player.x, CellSize), BoxIndex(player.y, CellSize))
    {
      var gx := BoxIndex(player.x, CellSize);
      var gy := BoxIndex(player.y, CellSize);
      success := false;
      if gy < |grid| && gx < |grid[0]| {
        if grid[gy][gx] == Goal {
          success := true;
        }
      }
    }

    /**
     * One tick's world rules: collect, then test the goal on the same cell.
     * The goal verdict is the one the grid gave before collecting.
     */
    method Tick() returns (success: bool)
      requires Valid()
      modifies this`grid, this`foldersCollected
      ensures Valid()
      ensures World(grid, foldersCollected) ==
        Collect(World(old(grid), old(foldersCollected)), BoxIndex(player.x, CellSize), BoxIndex(player.y, CellSize))
      ensures success <==> Reached(old(grid), BoxIndex(player.x, CellSize), BoxIndex(player.y, CellSize))
    {
      var gx := BoxIndex(player.x, CellSize);
      var gy := BoxIndex(player.y, CellSize);
      CollectFolder();
      success := CheckGoal();
      CollectKeepsGoals(World(old(grid), old(foldersCollected)), gx, gy, gx, gy);
    }
  }
}
