/**
 * The chunk of chunks/chunk.go: a grid of optional tiles shared by
 * reference, its world placement, and a cached draw batch.
 *
 * The model keeps the source's quirks: the bounds check is a disjunction,
 * Set and Fill leave the cached batch alone, a cell's world offset swaps the
 * axes, and the vertical culling test scales the tile height by the chunk's
 * X size. Coordinates are integers, and the grid indexing that Go checks at
 * run time is a precondition of Get, Set and Fill.
 */
module Chunks {
  import opened Wrappers
  import opened Geometry
  import opened Tiles

  /** One outcome of rand.IntN(4): a number of quarter turns. */
  type Quarter = q: int | 0 <= q < 4

  /**
   * What a batch rebuild consults besides the grid: the tile definition table
   * and the random source, given as the quarter turns drawn for each cell.
   */
  datatype Renderer = Renderer(tileMap: map<string, TileData>, turn: (int, int) -> Quarter)

  /** The world origin of a chunk and the size of one of its cells. */
  datatype Layout = Layout(location: Vec, tileSize: Vec)

  /** A sprite drawn into a batch: the grid cell, its tile, world position and rotation. */
  datatype Placement = Placement(cell: Vec, tile: Tile, position: Vec, quarterTurns: int)

  /** A draw batch, as the sequence of sprites drawn into it. */
  type Batch = seq<Placement>

  /**
   * How Draw places the tile of cell (x, y): the column index y scales the
   * cell height into the X offset and the row index x scales the cell width
   * into the Y offset; the rotation is random only for tile types whose
   * table entry asks for it.
   */
  function Place(layout: Layout, renderer: Renderer, x: int, y: int, tile: Tile): (p: Placement)
    ensures p.cell == Vec(x, y) && p.tile == tile
    ensures 0 <= p.quarterTurns < 4
    ensures !Lookup(renderer.tileMap, tile.meta.id).applyRotation ==> p.quarterTurns == 0
  {
    var position := Vec(layout.location.x + y * layout.tileSize.y, layout.location.y + x * layout.tileSize.x);
    var turns := if Lookup(renderer.tileMap, tile.meta.id).applyRotation then renderer.turn(x, y) else 0;
    Placement(Vec(x, y), tile, position, turns)
  }

  /** The tile grid as a value: grid[x] is row x, and rows may differ in length. */
  type Grid = seq<seq<Option<Tile>>>

  /** Row x of a tile array, up to column n. */
  function SnapshotRow(a: array2<Option<Tile>>, x: nat, n: nat): (row: seq<Option<Tile>>)
    requires x < a.Length0 && n <= a.Length1
    reads a
    ensures |row| == n
  {
    if n == 0 then [] else SnapshotRow(a, x, n - 1) + [a[x, n - 1]]
  }

  /** The first n rows of a tile array. */
  function SnapshotRows(a: array2<Option<Tile>>, n: nat): (g: Grid)
    requires n <= a.Length0
    reads a
    ensures |g| == n
  {
    if n == 0 then [] else SnapshotRows(a, n - 1) + [SnapshotRow(a, n - 1, a.Length1)]
  }

  /** The current contents of a chunk's tile array. */
  function Snapshot(a: array2<Option<Tile>>): Grid
    reads a
  {
    SnapshotRows(a, a.Length0)
  }

  /** A snapshot has the array's shape and the array's cells. */
  lemma SnapshotCell(a: array2<Option<Tile>>, x: nat, y: nat)
    ensures x < |Snapshot(a)| && y < |Snapshot(a)[x]| <==> x < a.Length0 && y < a.Length1
    ensures x < a.Length0 && y < a.Length1 ==> Snapshot(a)[x][y] == a[x, y]
  {
    if x < a.Length0 {
      SnapshotRowsCell(a, a.Length0, x);
      if y < a.Length1 {
        SnapshotRowCell(a, x, a.Length1, y);
      }
    }
  }

  /** The sprites of cell (x, y) of a snapshot, read off the array. */
  lemma CellOfSnapshot(a: array2<Option<Tile>>, layout: Layout, renderer: Renderer, x: nat, y: nat)
    ensures CellBatch(Snapshot(a), layout, renderer, x, y) ==
      if x < a.Length0 && y < a.Length1 && a[x, y].Some? then [Place(layout, renderer, x, y, a[x, y].value)] else []
  {
    SnapshotCell(a, x, y);
  }

  lemma {:induction false} SnapshotRowsCell(a: array2<Option<Tile>>, n: nat, x: nat)
    requires x < n <= a.Length0
    ensures SnapshotRows(a, n)[x] == SnapshotRow(a, x, a.Length1)
  {
    if x < n - 1 {
      SnapshotRowsCell(a, n - 1, x);
    }
  }

  lemma {:induction false} SnapshotRowCell(a: array2<Option<Tile>>, x: nat, n: nat, y: nat)
    requires x < a.Length0 && y < n <= a.Length1
    ensures SnapshotRow(a, x, n)[y] == a[x, y]
  {
    if y < n - 1 {
      SnapshotRowCell(a, x, n - 1, y);
    }
  }

  /** The number of passes of `for i := 0; i < n; i++`. */
  function Passes(n: int): nat
  {
    if n > 0 then n else 0
  }

  /** Sprites for cell (x, y): none when the cell is beyond the grid or empty. */
  function CellBatch(grid: Grid, layout: Layout, renderer: Renderer, x: nat, y: nat): Batch
  {
    if x < |grid| && y < |grid[x]| && grid[x][y].Some?
    then [Place(layout, renderer, x, y, grid[x][y].value)]
    else []
  }

  /** Sprites for cells (x, 0) .. (x, cols - 1), in that order. */
  function RowBatch(grid: Grid, layout: Layout, renderer: Renderer, x: nat, cols: nat): Batch
  {
    if cols == 0 then []
    else RowBatch(grid, layout, renderer, x, cols - 1) + CellBatch(grid, layout, renderer, x, cols - 1)
  }

  /** Sprites for rows 0 .. rows - 1, row after row. */
  function GridBatch(grid: Grid, layout: Layout, renderer: Renderer, rows: nat, cols: nat): Batch
  {
    if rows == 0 then []
    else GridBatch(grid, layout, renderer, rows - 1, cols) + RowBatch(grid, layout, renderer, rows - 1, cols)
  }

  /** Row-major order of grid cells. */
  predicate Before(a: Vec, b: Vec)
  {
    a.x < b.x || (a.x == b.x && a.y < b.y)
  }

  /** p is the sprite Draw makes for a non-empty cell of the grid. */
  predicate FromGrid(grid: Grid, layout: Layout, renderer: Renderer, p: Placement)
  {
    && 0 <= p.cell.x < |grid| && 0 <= p.cell.y < |grid[p.cell.x]|
    && grid[p.cell.x][p.cell.y] == Some(p.tile)
    && p == Place(layout, renderer, p.cell.x, p.cell.y, p.tile)
  }

  /** The sprites of b are in strictly row-major order of their cells. */
  predicate RowMajor(b: Batch)
  {
    forall i, j :: 0 <= i < j < |b| ==> Before(b[i].cell, b[j].cell)
  }

  /** Every value the loop `for v := from; v != to; v += step` visits, step being +1 towards a larger `to` and -1 otherwise. */
  predicate Visits(from: int, to: int, v: int)
  {
    if to > from then from <= v < to else to < v <= from
  }

  /** The grid of a chunk, with what Set may index without a runtime panic. */
  class Chunk {
    var tiles: array2<Option<Tile>>
    var location: Vec
    var size: Vec
    var tileSize: Vec
    var chunkPosition: Vec
    var renderData: Option<Batch>

    /** NewChunk: keeps the caller's grid itself, not a copy, and starts with no batch. */
    constructor (tiles: array2<Option<Tile>>, location: Vec, size: Vec, tileSize: Vec)
      ensures this.tiles == tiles && this.location == location && this.size == size && this.tileSize == tileSize
      ensures chunkPosition == Zero && renderData == None
    {
      this.tiles := tiles;
      this.location := location;
      this.size := size;
      this.tileSize := tileSize;
      chunkPosition := Zero;
      renderData := None;
    }

    function CellLayout(): Layout
      reads this
    {
      Layout(location, tileSize)
    }

    /**
     * The bounds check: passes when either axis is at most the chunk size,
     * so every cell of the chunk passes, and so does the size itself.
     */
    function ValidLocation(p: Vec): (ok: bool)
      reads this
      ensures ok <==> p.x <= size.x || p.y <= size.y
      ensures 0 <= p.x < size.x && 0 <= p.y < size.y ==> ok
    {
      p.x - 1 < size.x || p.y - 1 < size.y
    }

    /** Indices that c.tiles[x][y] can reach without a Go index panic. */
    predicate InGrid(p: Vec)
      reads this
    {
      0 <= p.x < tiles.Length0 && 0 <= p.y < tiles.Length1
    }

    /** Get: the tile of a cell that passes the bounds check, otherwise none. */
    function Get(p: Vec): (t: Option<Tile>)
      requires ValidLocation(p) ==> InGrid(p)
      reads this, tiles
      ensures !ValidLocation(p) ==> t == None
    {
      if ValidLocation(p) then tiles[p.x, p.y] else None
    }

    /** Set: writes one cell when the bounds check passes, and nothing else. */
    method Set(p: Vec, tile: Option<Tile>) returns (r: Chunk?)
      requires ValidLocation(p) ==> InGrid(p)
      modifies tiles
      ensures r == if ValidLocation(p) then this else null
      ensures forall i, j :: 0 <= i < tiles.Length0 && 0 <= j < tiles.Length1 ==>
        tiles[i, j] == if r != null && i == p.x && j == p.y then tile else old(tiles[i, j])
      ensures r != null ==> Get(p) == tile
      ensures renderData == old(renderData)
    {
      if !ValidLocation(p) {
        return null;
      }
      tiles[p.x, p.y] := tile;
      return this;
    }

    /**
     * Fill: when both corners pass the bounds check, sets every cell of the
     * rectangle from `from` towards `to`, `to`'s row and column excluded;
     * cells inside it that fail the bounds check are skipped by Set.
     */
    method Fill(from: Vec, to: Vec, tile: Option<Tile>) returns (r: Chunk?)
      requires ValidLocation(from) && ValidLocation(to) ==>
        forall x, y :: Visits(from.x, to.x, x) && Visits(from.y, to.y, y) && ValidLocation(Vec(x, y)) ==> InGrid(Vec(x, y))
      modifies tiles
      ensures r == if ValidLocation(from) && ValidLocation(to) then this else null
      ensures forall i, j :: 0 <= i < tiles.Length0 && 0 <= j < tiles.Length1 ==>
        tiles[i, j] == if r != null && Visits(from.x, to.x, i) && Visits(from.y, to.y, j) && ValidLocation(Vec(i, j))
                       then tile else old(tiles[i, j])
      ensures renderData == old(renderData)
    {
      if !ValidLocation(from) || !ValidLocation(to) {
        return null;
      }
      var moveX, moveY := 1, 1;
      if to.x <= from.x {
        moveX := -1;
      }
      if to.y <= from.y {
        moveY := -1;
      }
      var x := from.x;
      while x != to.x
        invariant if moveX == 1 then from.x <= x <= to.x else to.x <= x <= from.x
        invariant moveX == (if to.x > from.x then 1 else -1)
        invariant forall i, j :: 0 <= i < tiles.Length0 && 0 <= j < tiles.Length1 ==>
          tiles[i, j] == if Visits(from.x, x, i) && Visits(from.y, to.y, j) && ValidLocation(Vec(i, j))
                         then tile else old(tiles[i, j])
        decreases if moveX == 1 then to.x - x else x - to.x
      {
        var y := from.y;
        while y != to.y
          invariant if moveY == 1 then from.y <= y <= to.y else to.y <= y <= from.y
          invariant moveY == (if to.y > from.y then 1 else -1)
          invariant forall i, j :: 0 <= i < tiles.Length0 && 0 <= j < tiles.Length1 ==>
            tiles[i, j] == if ((Visits(from.x, x, i) && Visits(from.y, to.y, j)) || (i == x && Visits(from.y, y, j))) && ValidLocation(Vec(i, j))
                           then tile else old(tiles[i, j])
          decreases if moveY == 1 then to.y - y else y - to.y
        {
          var _ := Set(Vec(x, y), tile);
          y := y + moveY;
        }
        x := x + moveX;
      }
      return this;
    }

    /** Reload: drops the cached batch, so that the next Draw rebuilds it. */
    method Reload() returns (r: Chunk)
      modifies this`renderData
      ensures r == this && renderData == None
    {
      renderData := None;
      return this;
    }

    /**
     * Draw: submits the cached batch when there is one, without looking at
     * the grid; otherwise builds a batch from every non-empty cell with
     * x < Size.X and y < Size.Y that lies in the grid, caches it and submits
     * it.
     */
    method Draw(renderer: Renderer) returns (submitted: Batch)
      modifies this`renderData
      ensures old(renderData).Some? ==> submitted == old(renderData).value && renderData == old(renderData)
      ensures old(renderData).None? ==>
        submitted == GridBatch(Snapshot(tiles), CellLayout(), renderer, Passes(size.x), Passes(size.y)) && renderData == Some(submitted)
    {
      if renderData.Some? {
        return renderData.value;
      }
      var grid, layout, rows, cols := tiles, CellLayout(), size.x, size.y;
      ghost var cells := Snapshot(grid);
      var b: Batch := [];
      var x := 0;
      while x < rows
        invariant 0 <= x <= Passes(rows)
        invariant b == GridBatch(cells, layout, renderer, x, Passes(cols))
        invariant cells == Snapshot(grid)
      {
        var row := RowSprites(grid, layout, renderer, x, cols);
        b := b + row;
        x := x + 1;
      }
      renderData := Some(b);
      submitted := b;
    }

    /** Draw's inner loop: the sprites of row x, over columns 0 .. cols - 1. */
    static method RowSprites(grid: array2<Option<Tile>>, layout: Layout, renderer: Renderer, x: nat, cols: int)
      returns (row: Batch)
      ensures row == RowBatch(Snapshot(grid), layout, renderer, x, Passes(cols))
    {
      row := [];
      var y := 0;
      while y < cols
        invariant 0 <= y <= Passes(cols)
        invariant row == RowBatch(Snapshot(grid), layout, renderer, x, y)
      {
        CellOfSnapshot(grid, layout, renderer, x, y);
        if x < grid.Length0 && y < grid.Length1 && grid[x, y].Some? {
          row := row + [Place(layout, renderer, x, y, grid[x, y].value)];
        }
        y := y + 1;
      }
    }

    /**
     * Visible: the culling test against a window of the given size. The
     * vertical extent multiplies the cell height by Size.X.
     */
    function Visible(width: int, height: int): (v: bool)
      reads this
      ensures v ==> location.x < width && location.y < height
      ensures v <==>
        && Overlaps(location.x, location.x + tileSize.x * size.x, 0, width)
        && Overlaps(location.y, location.y + tileSize.y * size.x, 0, height)
    {
      && location.x < width
      && location.x + tileSize.x * size.x > 0
      && location.y < height
      && location.y + tileSize.y * size.x > 0
    }
  }

  // ---------------------------------------------------------------------
  // Properties of a rebuilt batch

  /** A row's sprites sit in that row, in its first cols columns. */
  lemma {:induction false} RowBatchCells(grid: Grid, layout: Layout, renderer: Renderer, x: nat, cols: nat)
    ensures forall p :: p in RowBatch(grid, layout, renderer, x, cols) ==> p.cell.x == x && 0 <= p.cell.y < cols
  {
    if cols > 0 {
      RowBatchCells(grid, layout, renderer, x, cols - 1);
    }
  }

  /** A row's sprites come from its own non-empty cells, placed by Place. */
  lemma {:induction false} RowBatchSound(grid: Grid, layout: Layout, renderer: Renderer, x: nat, cols: nat)
    ensures forall p :: p in RowBatch(grid, layout, renderer, x, cols) ==>
      p.cell.x == x && 0 <= p.cell.y < cols && FromGrid(grid, layout, renderer, p)
  {
    if cols > 0 {
      RowBatchSound(grid, layout, renderer, x, cols - 1);
    }
  }

  /** Every non-empty cell among a row's first cols columns has its sprite in the row's batch. */
  lemma {:induction false} RowBatchComplete(grid: Grid, layout: Layout, renderer: Renderer, x: nat, cols: nat)
    ensures forall y :: 0 <= y < cols && x < |grid| && y < |grid[x]| && grid[x][y].Some? ==>
      Place(layout, renderer, x, y, grid[x][y].value) in RowBatch(grid, layout, renderer, x, cols)
  {
    if cols > 0 {
      RowBatchComplete(grid, layout, renderer, x, cols - 1);
    }
  }

  /** A row's sprites run left to right. */
  lemma {:induction false} RowBatchOrdered(grid: Grid, layout: Layout, renderer: Renderer, x: nat, cols: nat)
    ensures RowMajor(RowBatch(grid, layout, renderer, x, cols))
  {
    if cols > 0 {
      RowBatchOrdered(grid, layout, renderer, x, cols - 1);
      RowBatchCells(grid, layout, renderer, x, cols - 1);
      var prev := RowBatch(grid, layout, renderer, x, cols - 1);
      var cell := CellBatch(grid, layout, renderer, x, cols - 1);
      assert forall q :: q in cell ==> q.cell == Vec(x, cols - 1);
      assert forall p, q :: p in prev && q in cell ==> Before(p.cell, q.cell);
      ConcatRowMajor(prev, cell);
    }
  }

  /** The sprites of the first rows rows sit in those rows. */
  lemma {:induction false} GridBatchRows(grid: Grid, layout: Layout, renderer: Renderer, rows: nat, cols: nat)
    ensures forall p :: p in GridBatch(grid, layout, renderer, rows, cols) ==> 0 <= p.cell.x < rows
  {
    if rows > 0 {
      var prev := GridBatch(grid, layout, renderer, rows - 1, cols);
      var row := RowBatch(grid, layout, renderer, rows - 1, cols);
      GridBatchRows(grid, layout, renderer, rows - 1, cols);
      RowBatchCells(grid, layout, renderer, rows - 1, cols);
      assert forall p :: p in prev + row <==> p in prev || p in row;
    }
  }

  /** Every sprite of a rebuilt batch comes from a non-empty cell among the first rows x cols, placed by Place. */
  lemma {:induction false} GridBatchSound(grid: Grid, layout: Layout, renderer: Renderer, rows: nat, cols: nat)
    ensures forall p :: p in GridBatch(grid, layout, renderer, rows, cols) ==>
      0 <= p.cell.x < rows && 0 <= p.cell.y < cols && FromGrid(grid, layout, renderer, p)
  {
    if rows > 0 {
      GridBatchSound(grid, layout, renderer, rows - 1, cols);
      RowBatchSound(grid, layout, renderer, rows - 1, cols);
      var prev := GridBatch(grid, layout, renderer, rows - 1, cols);
      var row := RowBatch(grid, layout, renderer, rows - 1, cols);
      assert GridBatch(grid, layout, renderer, rows, cols) == prev + row;
      forall p: Placement | p in prev + row
        ensures 0 <= p.cell.x < rows && 0 <= p.cell.y < cols && FromGrid(grid, layout, renderer, p)
      {
        if p !in prev {
          assert p in row;
        }
      }
    }
  }

  /** Every non-empty cell among the first rows x cols of the grid has its sprite in a rebuilt batch. */
  lemma {:induction false} GridBatchComplete(grid: Grid, layout: Layout, renderer: Renderer, rows: nat, cols: nat)
    ensures forall x, y :: 0 <= x < rows && 0 <= y < cols && x < |grid| && y < |grid[x]| && grid[x][y].Some? ==>
      Place(layout, renderer, x, y, grid[x][y].value) in GridBatch(grid, layout, renderer, rows, cols)
  {
    if rows > 0 {
      GridBatchComplete(grid, layout, renderer, rows - 1, cols);
      RowBatchComplete(grid, layout, renderer, rows - 1, cols);
      var prev := GridBatch(grid, layout, renderer, rows - 1, cols);
      var row := RowBatch(grid, layout, renderer, rows - 1, cols);
      assert GridBatch(grid, layout, renderer, rows, cols) == prev + row;
      forall x: int, y: int | 0 <= x < rows && 0 <= y < cols && x < |grid| && y < |grid[x]| && grid[x][y].Some?
        ensures Place(layout, renderer, x, y, grid[x][y].value) in prev + row
      {
        var p := Place(layout, renderer, x, y, grid[x][y].value);
        if x < rows - 1 {
          assert p in prev;
        } else {
          assert p in row;
        }
      }
    }
  }

  /** A rebuilt batch lists its cells in row-major order, so no cell twice. */
  lemma {:induction false} GridBatchOrdered(grid: Grid, layout: Layout, renderer: Renderer, rows: nat, cols: nat)
    ensures RowMajor(GridBatch(grid, layout, renderer, rows, cols))
  {
    if rows > 0 {
      var prev := GridBatch(grid, layout, renderer, rows - 1, cols);
      var row := RowBatch(grid, layout, renderer, rows - 1, cols);
      GridBatchOrdered(grid, layout, renderer, rows - 1, cols);
      RowBatchOrdered(grid, layout, renderer, rows - 1, cols);
      forall p, q | p in prev && q in row
        ensures Before(p.cell, q.cell)
      {
        GridBatchRows(grid, layout, renderer, rows - 1, cols);
        RowBatchCells(grid, layout, renderer, rows - 1, cols);
        assert p.cell.x < rows - 1 && q.cell.x == rows - 1;
      }
      ConcatRowMajor(prev, row);
    }
  }

  /** Two row-major batches, the first wholly before the second, concatenate to a row-major batch. */
  lemma ConcatRowMajor(a: Batch, b: Batch)
    requires RowMajor(a) && RowMajor(b)
    requires forall p, q :: p in a && q in b ==> Before(p.cell, q.cell)
    ensures RowMajor(a + b)
  {
    var c := a + b;
    forall i, j | 0 <= i < j < |c| ensures Before(c[i].cell, c[j].cell) {
      if j < |a| {
        assert c[i] == a[i] && c[j] == a[j];
      } else if i < |a| {
        assert c[i] == a[i] && c[j] == b[j - |a|];
      } else {
        assert c[i] == b[i - |a|] && c[j] == b[j - |a|];
      }
    }
  }

  /** With positive cell sizes, distinct cells are drawn at distinct positions, despite the axis swap. */
  lemma PlaceInjective(layout: Layout, renderer: Renderer, x1: int, y1: int, t1: Tile, x2: int, y2: int, t2: Tile)
    requires layout.tileSize.x > 0 && layout.tileSize.y > 0
    requires Place(layout, renderer, x1, y1, t1).position == Place(layout, renderer, x2, y2, t2).position
    ensures x1 == x2 && y1 == y2
  {
    var ts := layout.tileSize;
    assert (y1 - y2) * ts.y == 0;
    assert (x1 - x2) * ts.x == 0;
  }

  // ---------------------------------------------------------------------
  // Properties of Fill and the bounds check

  /**
   * Fill never reaches its `to` row or column, and a corner pair that is equal
   * on either axis covers no cell at all.
   */
  lemma FillExcludesEnd(from: Vec, to: Vec, x: int, y: int)
    ensures !(Visits(from.x, to.x, to.x) || Visits(from.y, to.y, to.y))
    ensures from.x == to.x || from.y == to.y ==> !(Visits(from.x, to.x, x) && Visits(from.y, to.y, y))
  {
  }

  /** The bounds check lets through any cell with one coordinate in range, and the size itself. */
  lemma ValidLocationIsPermissive(c: Chunk, p: Vec)
    ensures p.x <= c.size.x || p.y <= c.size.y <==> c.ValidLocation(p)
    ensures c.ValidLocation(Vec(c.size.x, c.size.y))
    ensures c.ValidLocation(Vec(p.x, c.size.y)) && c.ValidLocation(Vec(c.size.x, p.y))
  {
  }

  /**
   * Fill((0, 0), (16, 16)) on a 16x16 chunk over a 16x16 grid covers exactly
   * the whole grid.
   */
  lemma FillWholeChunk(c: Chunk, x: int, y: int)
    requires c.size == Vec(16, 16) && c.tiles.Length0 == 16 && c.tiles.Length1 == 16
    ensures c.ValidLocation(Vec(0, 0)) && c.ValidLocation(Vec(16, 16))
    ensures Visits(0, 16, x) && Visits(0, 16, y) && c.ValidLocation(Vec(x, y)) <==> c.InGrid(Vec(x, y))
  {
  }

  // ---------------------------------------------------------------------
  // Properties of Visible

  /** Open-interval overlap of [lo1, hi1] and [lo2, hi2]. */
  predicate Overlaps(lo1: int, hi1: int, lo2: int, hi2: int)
  {
    lo1 < hi2 && lo2 < hi1
  }

  /**
   * For a square chunk the culling test is exactly the overlap of the chunk's
   * world box with the window (0, 0)-(width, height).
   */
  lemma VisibleWhenSquare(c: Chunk, width: int, height: int)
    requires c.size.x == c.size.y
    ensures c.Visible(width, height) <==>
      && Overlaps(c.location.x, c.location.x + c.tileSize.x * c.size.x, 0, width)
      && Overlaps(c.location.y, c.location.y + c.tileSize.y * c.size.y, 0, height)
  {
  }

  /**
   * The vertical test ignores the chunk's Y size: a chunk one cell wide and
   * a hundred cells tall whose box reaches into the window is culled.
   */
  lemma VisibleIgnoresHeight(c: Chunk)
    requires c.location == Vec(0, -50) && c.size == Vec(1, 100) && c.tileSize == Vec(1, 1)
    ensures Overlaps(c.location.y, c.location.y + c.tileSize.y * c.size.y, 0, 768)
    ensures Overlaps(c.location.x, c.location.x + c.tileSize.x * c.size.x, 0, 1024)
    ensures !c.Visible(1024, 768)
  {
  }

  /** A chunk far to the right of the window is culled. */
  lemma FarChunkCulled(c: Chunk)
    requires c.location.x == 10000
    ensures !c.Visible(1024, 768)
  {
  }
}
