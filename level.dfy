/**
 * The level grid: the cell kinds, the blocking rule shared by collision and
 * ray casting, and the text-to-grid parser of `load_level_from_file`.
 *
 * Reading the file is not modelled: the loader receives the outcome of the
 * read, either the file's lines or the I/O error's message.
 */
module Level {
  import opened Results

  datatype Cell = Floor | Wall | Goal | Guard1 | Guard2 | Folder | Unknown

  /** Rows of cells, indexed `grid[row][col]`. */
  type Grid = seq<seq<Cell>>

  /**
   * The kinds that stop bodies and rays. The source lists the five walkable
   * kinds and treats every other kind as solid.
   */
  function IsBlocking(c: Cell): (b: bool)
    ensures b <==> c == Wall || c == Unknown
  {
    match c
    case Floor | Goal | Folder | Guard1 | Guard2 => false
    case _ => true
  }

  /** Column count as the source measures it: the length of the first row. */
  function Cols(grid: Grid): nat
  {
    if |grid| > 0 then |grid[0]| else 0
  }

  /** Every row is as long as the first one. */
  ghost predicate Rectangular(grid: Grid)
  {
    forall i :: 0 <= i < |grid| ==> |grid[i]| == Cols(grid)
  }

  /** `(col, row)` passes the source's bounds test `0 <= row < rows && 0 <= col < cols`. */
  predicate InGrid(grid: Grid, col: int, row: int)
  {
    0 <= row < |grid| && 0 <= col < Cols(grid)
  }

  // ---------------------------------------------------------------------------
  // Parsing

  /** The message prefix the loader puts in front of an I/O error. */
  const ReadErrorPrefix: string := "Error reading level: "

  /** The glyph table: each kind's glyphs, and `Unknown` for everything else. */
  function GlyphCell(ch: char): (c: Cell)
    ensures c == Floor <==> ch == ' '
    ensures c == Wall <==> ch == '+' || ch == '-' || ch == '|'
    ensures c == Goal <==> ch == 'g'
    ensures c == Guard1 <==> ch == 'G'
    ensures c == Guard2 <==> ch == 'H'
    ensures c == Folder <==> ch == 'f'
    ensures IsBlocking(c) <==> ch !in " gGHf"
  {
    match ch
    case ' ' => Floor
    case '+' | '-' | '|' => Wall
    case 'g' => Goal
    case 'G' => Guard1
    case 'H' => Guard2
    case 'f' => Folder
    case _ => Unknown
  }

  /** `trim_end_matches('\r')`: every trailing carriage return goes, nothing else does. */
  function TrimCR(s: string): (t: string)
    ensures t <= s
    ensures |t| == 0 || t[|t| - 1] != '\r'
    ensures forall i :: |t| <= i < |s| ==> s[i] == '\r'
  {
    if |s| > 0 && s[|s| - 1] == '\r' then TrimCR(s[..|s| - 1]) else s
  }

  /** The trimmed lines, in order. */
  function TrimLines(raw: seq<string>): (lines: seq<string>)
  {
    seq(|raw|, i requires 0 <= i < |raw| => TrimCR(raw[i]))
  }

  /** `max` of the line lengths, with 0 for no lines (`unwrap_or(0)`). */
  function MaxWidth(lines: seq<string>): (w: nat)
    ensures forall i :: 0 <= i < |lines| ==> |lines[i]| <= w
    ensures |lines| == 0 ==> w == 0
    ensures |lines| > 0 ==> exists i :: 0 <= i < |lines| && |lines[i]| == w
  {
    if |lines| == 0 then 0
    else
      var m := MaxWidth(lines[..|lines| - 1]);
      var last := |lines[|lines| - 1]|;
      if last > m then last else m
  }

  function Spaces(n: nat): (s: string)
  {
    seq(n, _ => ' ')
  }

  /** A line shorter than `w` gets spaces on the right up to `w`; a longer or equal one is left alone. */
  function PadRight(s: string, w: nat): (t: string)
    ensures |t| == if |s| < w then w else |s|
    ensures s <= t
    ensures forall i :: |s| <= i < |t| ==> t[i] == ' '
  {
    if |s| < w then s + Spaces(w - |s|) else s
  }

  function ParseRow(s: string): seq<Cell>
  {
    seq(|s|, j requires 0 <= j < |s| => GlyphCell(s[j]))
  }

  /**
   * The grid the loader builds from the lines of a level file: one row per
   * line, every row as wide as the widest trimmed line, each cell the glyph's
   * kind and `Floor` where padding was added.
   */
  function Parse(raw: seq<string>): (g: Grid)
    ensures |g| == |raw|
    ensures forall i :: 0 <= i < |g| ==> |g[i]| == MaxWidth(TrimLines(raw))
    ensures Rectangular(g)
    ensures forall i, j :: 0 <= i < |g| && 0 <= j < |g[i]| ==>
      g[i][j] == if j < |TrimCR(raw[i])| then GlyphCell(TrimCR(raw[i])[j]) else Floor
  {
    var lines := TrimLines(raw);
    var w := MaxWidth(lines);
    seq(|lines|, i requires 0 <= i < |lines| => ParseRow(PadRight(lines[i], w)))
  }

  /**
   * The parsing part of `load_level_from_file`: trim the lines, pad them in
   * place to the widest one, then build the grid row by row.
   */
  method ParseLines(raw: seq<string>) returns (grid: Grid)
    ensures grid == Parse(raw)
  {
    var lines := TrimLines(raw);
    var maxw := MaxWidth(lines);
    lines := PadLines(lines, maxw);
    grid := [];
    for r := 0 to |lines|
      invariant |grid| == r
      invariant forall k :: 0 <= k < r ==> grid[k] == ParseRow(lines[k])
    {
      var row := ParseLine(lines[r]);
      grid := grid + [row];
    }
  }

  /** The padding loop: every line shorter than `w` gets spaces appended, in place. */
  method PadLines(lines: seq<string>, w: nat) returns (padded: seq<string>)
    ensures |padded| == |lines|
    ensures forall k :: 0 <= k < |lines| ==> padded[k] == PadRight(lines[k], w)
  {
    padded := lines;
    for i := 0 to |padded|
      invariant |padded| == |lines|
      invariant forall k :: 0 <= k < i ==> padded[k] == PadRight(lines[k], w)
      invariant forall k :: i <= k < |lines| ==> padded[k] == lines[k]
    {
      if |padded[i]| < w {
        padded := padded[i := padded[i] + Spaces(w - |padded[i]|)];
      }
    }
  }

  /** The row loop: one cell per character, pushed in order. */
  method ParseLine(line: string) returns (row: seq<Cell>)
    ensures row == ParseRow(line)
  {
    row := [];
    for j := 0 to |line|
      invariant row == ParseRow(line[..j])
    {
      row := row + [GlyphCell(line[j])];
    }
    assert line[..|line|] == line;
  }

  /** `load_level_from_file`: a failed read is the only error; parsing always succeeds. */
  method LoadLevelFromFile(contents: Result<seq<string>, string>) returns (r: Result<Grid, string>)
    ensures contents.Err? ==> r == Err(ReadErrorPrefix + contents.error)
    ensures contents.Ok? ==> r == Ok(Parse(contents.value)) && Rectangular(r.value)
  {
    if contents.Err? {
      return Err(ReadErrorPrefix + contents.error);
    }
    var grid := ParseLines(contents.value);
    return Ok(grid);
  }
}
