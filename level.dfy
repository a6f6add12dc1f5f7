/** Level generation (level.rs): reading the pattern text, the fixed
    fixtures of every level (starting platform, backgrounds and side walls)
    and the walk that lays each chosen pattern out on the tile grid. */
module Level {
  import opened World
  import opened Text
  import Tile

  const TILEMAP_WIDTH: int := 20
  const LEVEL_WIDTH: real := TILEMAP_WIDTH as real
  /** Height of a single pattern, in tiles. */
  const CHUNK_HEIGHT: int := 8
  /** Height of a level, in chunks. */
  const LEVEL_HEIGHT: int := 30
  /** Height seen on camera at any time. */
  const VIEW_HEIGHT: real := 14.0

  datatype LevelGenerator = LevelGenerator(patterns: seq<string>)

  // ---------------------------------------------------------------------
  // Reading the patterns

  predicate IsComment(line: string) {
    |line| > 0 && line[0] == '#'
  }

  /** The lines that are not comments, in their original order. */
  function Uncommented(lines: seq<string>): (kept: seq<string>)
    ensures |kept| <= |lines|
    ensures forall k :: 0 <= k < |kept| ==> !IsComment(kept[k]) && kept[k] in lines
  {
    if lines == [] then []
    else (if IsComment(lines[0]) then [] else [lines[0]]) + Uncommented(lines[1..])
  }

  /** Filtering keeps every non-comment line and keeps the order: it
      distributes over concatenation. */
  lemma {:induction false} UncommentedKeepsOrder(a: seq<string>, b: seq<string>)
    ensures Uncommented(a + b) == Uncommented(a) + Uncommented(b)
    decreases |a|
  {
    if a != [] {
      assert (a + b)[1..] == a[1..] + b;
      UncommentedKeepsOrder(a[1..], b);
    } else {
      assert a + b == b;
    }
  }

  /** Every line that is not a comment survives the filter. */
  lemma {:induction false} UncommentedKeepsLines(lines: seq<string>)
    ensures forall l :: l in lines && !IsComment(l) ==> l in Uncommented(lines)
    decreases |lines|
  {
    if lines != [] {
      UncommentedKeepsLines(lines[1..]);
      forall l | l in lines && !IsComment(l) ensures l in Uncommented(lines) {
        if l != lines[0] {
          assert l in lines[1..];
        }
      }
    }
  }

  /** One stored pattern: the block's lines, comments dropped, rejoined
      with a single '\n' between neighbours. */
  function Pattern(block: string): string {
    Join(Uncommented(Lines(block)), "\n")
  }

  /** LevelGenerator::new: one pattern per "\n\n"-separated block. */
  function New(patternData: string): (g: LevelGenerator)
    ensures |g.patterns| == |Split(patternData, "\n\n")| >= 1
  {
    var blocks := Split(patternData, "\n\n");
    LevelGenerator(seq(|blocks|, k requires 0 <= k < |blocks| => Pattern(blocks[k])))
  }

  /** The blocks `new` cuts the text into are exactly the text's
      "\n\n"-separated pieces: they put back together to the text, and none
      of them holds a blank-line separator. */
  lemma BlocksOfNew(patternData: string)
    ensures var blocks := Split(patternData, "\n\n");
      Join(blocks, "\n\n") == patternData &&
      (forall k :: 0 <= k < |blocks| ==> !Contains(blocks[k], "\n\n")) &&
      (forall k :: 0 <= k < |blocks| ==> New(patternData).patterns[k] == Pattern(blocks[k]))
  {
    JoinSplit(patternData, "\n\n");
    SplitPiecesFree(patternData, "\n\n");
  }

  /** A stored pattern is made of the block's non-comment lines: cutting it
      at each '\n' gives them back, so no line of it is a comment and the
      lines are joined by single separators, none leading or trailing. */
  lemma PatternLines(block: string)
    ensures var kept := Uncommented(Lines(block));
      (kept == [] ==> Pattern(block) == "") &&
      (kept != [] ==> Split(Pattern(block), "\n") == kept) &&
      (forall k :: 0 <= k < |kept| ==> !IsComment(kept[k]))
  {
    var kept := Uncommented(Lines(block));
    if kept != [] {
      forall k | 0 <= k < |kept| ensures '\n' !in kept[k] {
        assert kept[k] in Lines(block);
      }
      SplitJoin(kept, '\n');
    }
  }

  // ---------------------------------------------------------------------
  // Laying a pattern out on the grid

  /** A non-newline pattern character and the grid cell it lands on. */
  datatype Cell = Cell(symbol: char, x: int, y: int)

  /** The walk of gen_tiles over the characters of `s`, starting at (x, y):
      a '\n' moves down one row and back to `startX`; any other character
      takes the current cell and moves `side` columns on. */
  function Walk(s: string, x: int, y: int, startX: int, side: int): seq<Cell>
    decreases |s|
  {
    if s == [] then []
    else if s[0] == '\n' then Walk(s[1..], startX, y - 1, startX, side)
    else [Cell(s[0], x, y)] + Walk(s[1..], x + side, y, startX, side)
  }

  /** The walk yields one cell per non-newline character, in order: the
      cells' symbols are exactly the text with its line breaks removed. */
  lemma {:induction false} WalkSymbols(s: string, x: int, y: int, startX: int, side: int)
    ensures |Walk(s, x, y, startX, side)| == |s| - multiset(s)['\n']
    ensures forall i :: 0 <= i < |Walk(s, x, y, startX, side)| ==> Walk(s, x, y, startX, side)[i].symbol != '\n'
    decreases |s|
  {
    if s != [] {
      assert s == [s[0]] + s[1..];
      assert multiset(s) == multiset{s[0]} + multiset(s[1..]);
      if s[0] == '\n' {
        WalkSymbols(s[1..], startX, y - 1, startX, side);
      } else {
        WalkSymbols(s[1..], x + side, y, startX, side);
      }
    }
  }

  /** One row laid out from column `x`, `side` columns apart. */
  function RowCells(row: string, x: int, side: int, y: int): (cells: seq<Cell>)
    ensures |cells| == |row|
    ensures forall j :: 0 <= j < |row| ==> cells[j] == Cell(row[j], x + side * j, y)
    decreases |row|
  {
    if row == [] then []
    else
      var rest := RowCells(row[1..], x + side, side, y);
      assert forall j :: 1 <= j < |row| ==> x + side + side * (j - 1) == x + side * j;
      [Cell(row[0], x, y)] + rest
  }

  /** Rows laid out top to bottom, starting at row `y` and going down. */
  function GridCells(rows: seq<string>, startX: int, side: int, y: int): (cells: seq<Cell>)
    ensures forall c :: c in cells ==> y - |rows| < c.y <= y
    decreases |rows|
  {
    if rows == [] then []
    else RowCells(rows[0], startX, side, y) + GridCells(rows[1..], startX, side, y - 1)
  }

  /** The number of cells taken by the first `r` rows. */
  function Offset(rows: seq<string>, r: nat): nat
    requires r <= |rows|
  {
    if r == 0 then 0 else Offset(rows, r - 1) + |rows[r - 1]|
  }

  /** Character j of row r lands in column startX + side * j of row y - r. */
  lemma {:induction false} GridCellAt(rows: seq<string>, startX: int, side: int, y: int, r: nat, j: nat)
    requires r < |rows| && j < |rows[r]|
    ensures Offset(rows, r) + j < |GridCells(rows, startX, side, y)|
    ensures GridCells(rows, startX, side, y)[Offset(rows, r) + j] == Cell(rows[r][j], startX + side * j, y - r)
    decreases r
  {
    var head := RowCells(rows[0], startX, side, y);
    if r == 0 {
    } else {
      GridCellAt(rows[1..], startX, side, y - 1, r - 1, j);
      OffsetShift(rows, r);
      assert GridCells(rows, startX, side, y) == head + GridCells(rows[1..], startX, side, y - 1);
    }
  }

  lemma {:induction false} OffsetShift(rows: seq<string>, r: nat)
    requires 0 < r <= |rows|
    ensures Offset(rows, r) == |rows[0]| + Offset(rows[1..], r - 1)
    decreases r
  {
    if r > 1 {
      OffsetShift(rows, r - 1);
    }
  }

  /** Walking a line with no '\n' lays it out as one row. */
  lemma {:induction false} WalkRow(a: string, b: string, x: int, y: int, startX: int, side: int)
    requires '\n' !in a
    ensures Walk(a + b, x, y, startX, side) == RowCells(a, x, side, y) + Walk(b, x + side * |a|, y, startX, side)
    decreases |a|
  {
    if a == [] {
      assert a + b == b;
    } else {
      assert (a + b)[1..] == a[1..] + b;
      WalkRow(a[1..], b, x + side, y, startX, side);
      assert x + side + side * (|a| - 1) == x + side * |a|;
    }
  }

  /** The character walk of gen_tiles is the row-by-row layout of the
      pattern's lines: line r lands on row y - r, its j-th character in
      column startX + side * j. */
  lemma {:induction false} WalkIsGrid(s: string, startX: int, side: int, y: int)
    ensures Walk(s, startX, y, startX, side) == GridCells(Split(s, "\n"), startX, side, y)
    decreases |s|
  {
    match FindFrom(s, "\n", 0)
    case None =>
      forall j | 0 <= j < |s| ensures s[j] != '\n' {
        assert s[j..j + 1] == [s[j]];
        assert !OccursAt(s, "\n", j);
      }
      WalkRow(s, [], startX, y, startX, side);
      assert s + [] == s;
    case Some(i) =>
      var line, rest := s[..i], s[i + 1..];
      forall j | 0 <= j < i ensures s[j] != '\n' {
        assert s[j..j + 1] == [s[j]];
        assert !OccursAt(s, "\n", j);
      }
      assert s[i..i + 1] == "\n";
      assert s == line + ("\n" + rest);
      WalkRow(line, "\n" + rest, startX, y, startX, side);
      assert ("\n" + rest)[1..] == rest;
      WalkIsGrid(rest, startX, side, y - 1);
  }

  // ---------------------------------------------------------------------
  // Generating the tiles

  /** The two sides of every chunk: (column step, starting column). */
  const SIDES: seq<(int, int)> := [(1, 0), (-1, TILEMAP_WIDTH - 1)]

  /** The top row of chunk `chunk`. */
  function ChunkTop(chunk: int): int {
    (chunk + 1) * CHUNK_HEIGHT - 1
  }

  /** One pattern index per (chunk, side), all within the pattern list. */
  predicate ValidChoices(g: LevelGenerator, choices: seq<nat>) {
    |choices| == 2 * LEVEL_HEIGHT && forall p :: 0 <= p < |choices| ==> choices[p] < |g.patterns|
  }

  /** The cells walked for placement p: chunk p / 2, side p % 2. */
  function PlacementCells(g: LevelGenerator, choices: seq<nat>, p: nat): seq<Cell>
    requires ValidChoices(g, choices) && p < |choices|
  {
    var (side, startX) := SIDES[p % 2];
    Walk(g.patterns[choices[p]], startX, ChunkTop(p / 2), startX, side)
  }

  /** The entities spawned for the cells of placement p; `flips(p, k)` is the
      coin of its k-th cell. */
  function Placed(cells: seq<Cell>, flips: (nat, nat) -> bool, p: nat): seq<Record>
    decreases |cells|
  {
    if cells == [] then []
    else
      var k := |cells| - 1;
      Placed(cells[..k], flips, p) + Tile.Spawned(Tile.Pick(cells[k].symbol, flips(p, k)), cells[k].x, cells[k].y)
  }

  lemma PlacedSnoc(cells: seq<Cell>, cell: Cell, flips: (nat, nat) -> bool, p: nat)
    ensures Placed(cells + [cell], flips, p) ==
      Placed(cells, flips, p) + Tile.Spawned(Tile.Pick(cell.symbol, flips(p, |cells|)), cell.x, cell.y)
  {
    assert (cells + [cell])[..|cells|] == cells;
  }

  lemma WalkStep(s: string, i: nat, x: int, y: int, startX: int, side: int)
    requires i < |s|
    ensures Walk(s[i..], x, y, startX, side) ==
      if s[i] == '\n' then Walk(s[i + 1..], startX, y - 1, startX, side)
      else [Cell(s[i], x, y)] + Walk(s[i + 1..], x + side, y, startX, side)
  {
    assert s[i..][1..] == s[i + 1..];
  }

  lemma PlacementOf(g: LevelGenerator, choices: seq<nat>, chunk: nat, s: nat)
    requires ValidChoices(g, choices) && chunk < LEVEL_HEIGHT && s < 2
    ensures PlacementCells(g, choices, 2 * chunk + s) ==
      Walk(g.patterns[choices[2 * chunk + s]], SIDES[s].1, (chunk + 1) * CHUNK_HEIGHT - 1, SIDES[s].1, SIDES[s].0)
  {
    assert (2 * chunk + s) / 2 == chunk && (2 * chunk + s) % 2 == s;
  }

  /** The entities spawned by the first n placements. */
  function LevelTiles(g: LevelGenerator, choices: seq<nat>, flips: (nat, nat) -> bool, n: nat): seq<Record>
    requires ValidChoices(g, choices) && n <= |choices|
  {
    if n == 0 then []
    else LevelTiles(g, choices, flips, n - 1) + Placed(PlacementCells(g, choices, n - 1), flips, n - 1)
  }

  lemma TilesGrow(g: LevelGenerator, choices: seq<nat>, flips: (nat, nat) -> bool,
                  r0: seq<Record>, before: seq<Record>, after: seq<Record>, p: nat)
    requires ValidChoices(g, choices) && p < |choices|
    requires before == r0 + LevelTiles(g, choices, flips, p)
    requires after == before + Placed(PlacementCells(g, choices, p), flips, p)
    ensures after == r0 + LevelTiles(g, choices, flips, p + 1)
  {
  }

  /** gen_tiles: for each chunk and each side, walk the chosen pattern and
      spawn the tile each character picks. */
  method GenTiles(g: LevelGenerator, w: World, choices: seq<nat>, flips: (nat, nat) -> bool)
    requires w.Valid() && ValidChoices(g, choices)
    modifies w
    ensures w.Valid()
    ensures w.records == old(w.records) + LevelTiles(g, choices, flips, |choices|)
    ensures w.dead == old(w.dead)
  {
    ghost var r0 := w.records;
    for chunk := 0 to LEVEL_HEIGHT
      invariant w.Valid() && w.records == r0 + LevelTiles(g, choices, flips, 2 * chunk)
      invariant w.dead == old(w.dead)
    {
      GenChunk(g, w, choices, flips, chunk, r0);
    }
  }

  /** The inner loop of gen_tiles: both sides of one chunk. */
  method GenChunk(g: LevelGenerator, w: World, choices: seq<nat>, flips: (nat, nat) -> bool, chunk: nat, ghost r0: seq<Record>)
    requires w.Valid() && ValidChoices(g, choices) && chunk < LEVEL_HEIGHT
    requires w.records == r0 + LevelTiles(g, choices, flips, 2 * chunk)
    modifies w
    ensures w.Valid() && w.dead == old(w.dead)
    ensures w.records == r0 + LevelTiles(g, choices, flips, 2 * chunk + 2)
  {
    for s := 0 to 2
      invariant w.Valid() && w.dead == old(w.dead)
      invariant w.records == r0 + LevelTiles(g, choices, flips, 2 * chunk + s)
    {
      var (side, startX) := SIDES[s];
      var p := 2 * chunk + s;
      ghost var before := w.records;
      SpawnPattern(g.patterns[choices[p]], w, startX, side, (chunk + 1) * CHUNK_HEIGHT - 1, flips, p);
      PlacementOf(g, choices, chunk, s);
      TilesGrow(g, choices, flips, r0, before, w.records, p);
    }
  }

  /** The body of gen_tiles for one placement: walk the characters of
      `pat`, keeping the current cell in (tileX, tileY). */
  method SpawnPattern(pat: string, w: World, startX: int, side: int, top: int, flips: (nat, nat) -> bool, p: nat)
    requires w.Valid()
    modifies w
    ensures w.Valid()
    ensures w.records == old(w.records) + Placed(Walk(pat, startX, top, startX, side), flips, p)
    ensures w.dead == old(w.dead)
  {
    ghost var r0, d0 := w.records, w.dead;
    var tileX := startX;
    var tileY := top;
    ghost var cells: seq<Cell> := [];
    var k := 0;
    var i := 0;
    while i < |pat|
      invariant 0 <= i <= |pat| && k == |cells|
      invariant cells + Walk(pat[i..], tileX, tileY, startX, side) == Walk(pat, startX, top, startX, side)
      invariant w.Valid() && w.records == r0 + Placed(cells, flips, p)
      invariant w.dead == d0
    {
      var c := pat[i];
      WalkStep(pat, i, tileX, tileY, startX, side);
      if c == '\n' {
        tileY := tileY - 1;
        tileX := startX;
      } else {
        var tile := Tile.Pick(c, flips(p, k));
        Tile.Spawn(tile, w, tileX, tileY);
        PlacedSnoc(cells, Cell(c, tileX, tileY), flips, p);
        cells := cells + [Cell(c, tileX, tileY)];
        k := k + 1;
        tileX := tileX + side;
      }
      i := i + 1;
    }
    assert pat[i..] == [];
    assert cells + [] == cells;
    assert cells == Walk(pat, startX, top, startX, side);
  }

  // ---------------------------------------------------------------------
  // Fixtures

  const LEFT_WALL_X: real := -(CHUNK_HEIGHT as real) / 2.0
  const RIGHT_WALL_X: real := TILEMAP_WIDTH as real + CHUNK_HEIGHT as real / 2.0

  /** The vertical middle of chunk `chunkIdx`. */
  function MidHeight(chunkIdx: int): real {
    (chunkIdx as real + 0.5) * (CHUNK_HEIGHT as real)
  }

  function Background(chunkIdx: int): Record {
    Bare.(pose := Some(Pose(Vec2(LEVEL_WIDTH / 2.0, MidHeight(chunkIdx)), 10.0)), mesh := Some(BackgroundMesh))
  }

  function SideWall(x: real, chunkIdx: int): Record {
    Bare.(pose := Some(Pose(Vec2(x, MidHeight(chunkIdx)), 0.0)),
          collider := Some(Collider(Square(CHUNK_HEIGHT as real), DefaultLayer, false)))
  }

  /** The first `rows` rows of the starting platform, from row -4 up. */
  function StartingPlatform(rows: nat): seq<Record> {
    if rows == 0 then []
    else
      var height := rows - 1 - 4;
      StartingPlatform(rows - 1) +
      [Tile.TileRecord(Tile.GroundUnbreakable, 0, height), Tile.TileRecord(Tile.GroundUnbreakable, TILEMAP_WIDTH - 1, height)]
  }

  /** The background and the two side walls of the first n chunks, from chunk -1 up. */
  function Backdrop(n: nat): seq<Record> {
    if n == 0 then []
    else
      var chunkIdx := n - 2;
      Backdrop(n - 1) + [Background(chunkIdx), SideWall(LEFT_WALL_X, chunkIdx), SideWall(RIGHT_WALL_X, chunkIdx)]
  }

  /** Everything spawn_fixtures adds. */
  function Fixtures(): seq<Record> {
    StartingPlatform(4) + Backdrop(LEVEL_HEIGHT + 2)
  }

  /** The starting platform is two unbreakable columns, at the left and right
      edges, one tile per row from row -4 up. */
  lemma {:induction false} StartingPlatformLayout(rows: nat)
    ensures |StartingPlatform(rows)| == 2 * rows
    ensures forall k :: 0 <= k < 2 * rows ==>
      StartingPlatform(rows)[k] ==
        Tile.TileRecord(Tile.GroundUnbreakable, if k % 2 == 0 then 0 else TILEMAP_WIDTH - 1, k / 2 - 4)
    ensures forall k :: 0 <= k < 2 * rows ==> StartingPlatform(rows)[k].breakable.None?
  {
    if rows > 0 {
      StartingPlatformLayout(rows - 1);
    }
  }

  /** The chunk backdrop has one background and two side walls, at
      x = -4 and x = 24, for every chunk from -1 to LEVEL_HEIGHT. */
  lemma {:induction false} BackdropLayout(n: nat)
    ensures |Backdrop(n)| == 3 * n
    ensures forall i :: 0 <= i < n ==>
      Backdrop(n)[3 * i] == Background(i - 1) &&
      Backdrop(n)[3 * i + 1] == SideWall(-4.0, i - 1) &&
      Backdrop(n)[3 * i + 2] == SideWall(24.0, i - 1)
  {
    if n > 0 {
      BackdropLayout(n - 1);
      var b := Backdrop(n);
      forall i | 0 <= i < n
        ensures b[3 * i] == Background(i - 1)
        ensures b[3 * i + 1] == SideWall(-4.0, i - 1) && b[3 * i + 2] == SideWall(24.0, i - 1)
      {
        if i < n - 1 {
          assert b[3 * i] == Backdrop(n - 1)[3 * i];
          assert b[3 * i + 1] == Backdrop(n - 1)[3 * i + 1];
          assert b[3 * i + 2] == Backdrop(n - 1)[3 * i + 2];
        }
      }
    }
  }

  /** The fixtures are 8 platform tiles and three records for each of the
      32 chunks, and none of them can break. */
  lemma FixturesUnbreakable()
    ensures |Fixtures()| == 8 + 3 * 32
    ensures forall k :: 0 <= k < |Fixtures()| ==> Fixtures()[k].breakable.None?
  {
    StartingPlatformLayout(4);
    BackdropLayout(LEVEL_HEIGHT + 2);
    var b := Backdrop(LEVEL_HEIGHT + 2);
    forall k | 0 <= k < |b| ensures b[k].breakable.None? {
      var i := k / 3;
      assert k == 3 * i || k == 3 * i + 1 || k == 3 * i + 2;
    }
  }

  /** spawn_fixtures: the starting platform, then a background and two side
      walls for each chunk from -1 to LEVEL_HEIGHT. */
  method SpawnFixtures(w: World)
    requires w.Valid()
    modifies w
    ensures w.Valid() && w.dead == old(w.dead)
    ensures w.records == old(w.records) + Fixtures()
  {
    ghost var r0 := w.records;
    for height := -4 to 0
      invariant w.Valid() && w.dead == old(w.dead)
      invariant w.records == r0 + StartingPlatform(height + 4)
    {
      Tile.Spawn(Tile.GroundUnbreakable, w, 0, height);
      Tile.Spawn(Tile.GroundUnbreakable, w, TILEMAP_WIDTH - 1, height);
    }

    var chunkHeight := CHUNK_HEIGHT as real;
    for chunkIdx := -1 to LEVEL_HEIGHT + 1
      invariant w.Valid() && w.dead == old(w.dead)
      invariant w.records == r0 + StartingPlatform(4) + Backdrop(chunkIdx + 1)
    {
      SpawnChunkBackdrop(w, chunkIdx, chunkHeight);
    }
  }

  /** The body of the second loop of spawn_fixtures: the background of one
      chunk, then its left and right side walls. */
  method SpawnChunkBackdrop(w: World, chunkIdx: int, chunkHeight: real)
    requires w.Valid() && chunkHeight == CHUNK_HEIGHT as real
    modifies w
    ensures w.Valid() && w.dead == old(w.dead)
    ensures w.records == old(w.records) +
      [Background(chunkIdx), SideWall(LEFT_WALL_X, chunkIdx), SideWall(RIGHT_WALL_X, chunkIdx)]
  {
    var halfwayWidth := LEVEL_WIDTH / 2.0;
    var midHeight := (chunkIdx as real + 0.5) * chunkHeight;
    assert midHeight == MidHeight(chunkIdx);
    var _ := w.Spawn(Bare.(pose := Some(Pose(Vec2(halfwayWidth, midHeight), 10.0)), mesh := Some(BackgroundMesh)));

    var sideWall := Collider(Square(CHUNK_HEIGHT as real), DefaultLayer, false);
    var leftWallX := -(CHUNK_HEIGHT as real) / 2.0;
    var rightWallX := TILEMAP_WIDTH as real + CHUNK_HEIGHT as real / 2.0;
    var walls := [leftWallX, rightWallX];
    assert walls[0] == LEFT_WALL_X && walls[1] == RIGHT_WALL_X;
    ghost var r0 := old(w.records);
    ghost var spawned := [Background(chunkIdx)];
    for j := 0 to 2
      invariant w.Valid() && w.dead == old(w.dead)
      invariant w.records == r0 + spawned
      invariant |spawned| == j + 1 && spawned[0] == Background(chunkIdx)
      invariant forall q :: 0 <= q < j ==> spawned[q + 1] == SideWall(walls[q], chunkIdx)
    {
      var _ := w.Spawn(Bare.(pose := Some(Pose(Vec2(walls[j], midHeight), 0.0)), collider := Some(sideWall)));
      spawned := spawned + [SideWall(walls[j], chunkIdx)];
    }
    assert spawned == [Background(chunkIdx), SideWall(LEFT_WALL_X, chunkIdx), SideWall(RIGHT_WALL_X, chunkIdx)];
  }

  /** generate: clear the world, spawn the fixtures, then the tiles. */
  method Generate(g: LevelGenerator, w: World, choices: seq<nat>, flips: (nat, nat) -> bool)
    requires w.Valid() && ValidChoices(g, choices)
    modifies w
    ensures w.Valid()
    ensures w.records == Fixtures() + LevelTiles(g, choices, flips, |choices|)
    ensures w.dead == {}
  {
    w.Clear();
    SpawnFixtures(w);
    GenTiles(g, w, choices, flips);
  }

  /** Records that are scenery: no player, no enemy, no physics body. */
  predicate Scenery(rs: seq<Record>) {
    forall i :: 0 <= i < |rs| ==> rs[i].player.None? && rs[i].enemy.None? && rs[i].body.None?
  }

  lemma {:induction false} PlacedIsScenery(cells: seq<Cell>, flips: (nat, nat) -> bool, p: nat)
    ensures Scenery(Placed(cells, flips, p))
    decreases |cells|
  {
    if cells != [] {
      PlacedIsScenery(cells[..|cells| - 1], flips, p);
    }
  }

  lemma {:induction false} TilesAreScenery(g: LevelGenerator, choices: seq<nat>, flips: (nat, nat) -> bool, n: nat)
    requires ValidChoices(g, choices) && n <= |choices|
    ensures Scenery(LevelTiles(g, choices, flips, n))
  {
    if n > 0 {
      TilesAreScenery(g, choices, flips, n - 1);
      PlacedIsScenery(PlacementCells(g, choices, n - 1), flips, n - 1);
    }
  }

  /** A generated level is pure scenery: nothing in it is a player, an
      enemy or a physics body. */
  lemma LevelIsScenery(g: LevelGenerator, choices: seq<nat>, flips: (nat, nat) -> bool)
    requires ValidChoices(g, choices)
    ensures Scenery(Fixtures() + LevelTiles(g, choices, flips, |choices|))
  {
    StartingPlatformLayout(4);
    BackdropLayout(LEVEL_HEIGHT + 2);
    var b := Backdrop(LEVEL_HEIGHT + 2);
    forall i | 0 <= i < |b| ensures b[i].player.None? && b[i].enemy.None? && b[i].body.None? {
      assert b[3 * (i / 3)] == Background(i / 3 - 1);
    }
    TilesAreScenery(g, choices, flips, |choices|);
  }

  /** The pattern "X\nX" on the left side of chunk k gives two strong tiles
      stacked in column 0, at rows 8k + 7 and 8k + 6, whatever the coins. */
  lemma StackedPair(k: int, flips: (nat, nat) -> bool, p: nat)
    ensures Walk("X\nX", 0, ChunkTop(k), 0, 1) == [Cell('X', 0, 8 * k + 7), Cell('X', 0, 8 * k + 6)]
    ensures Placed([Cell('X', 0, 8 * k + 7), Cell('X', 0, 8 * k + 6)], flips, p) ==
      [Tile.TileRecord(Tile.GroundStrong, 0, 8 * k + 7), Tile.TileRecord(Tile.GroundStrong, 0, 8 * k + 6)]
  {
    var pat := "X\nX";
    assert pat[1..] == "\nX" && pat[1..][1..] == "X" && "X"[1..] == [];
    assert ChunkTop(k) == 8 * k + 7;
    assert Walk("X", 0, 8 * k +6, 0, 1) == [Cell('X', 0, 8 * k + 6)];
    var cells := [Cell('X', 0, 8 * k + 7), Cell('X', 0, 8 * k + 6)];
    assert cells[..1] == [cells[0]];
    assert cells[..1][..0] == [];
    assert Tile.Pick('X', flips(p, 0)) == Tile.GroundStrong && Tile.Pick('X', flips(p, 1)) == Tile.GroundStrong;
    assert Placed(cells[..1], flips, p) == [Tile.TileRecord(Tile.GroundStrong, 0, 8 * k + 7)];
  }
}
