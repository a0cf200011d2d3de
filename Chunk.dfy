/**
 * src/chunks/Chunk.ts: one chunk of the world grid. Its container sits at a
 * pixel offset derived from the chunk coordinate; its graphics object is
 * cleared and redrawn with one rounded outline per cell (when the grid is
 * shown) followed by a filled and stroked 4x4 centre block.
 */
module Chunks {
  import opened Wrappers
  import opened Config
  import opened Graphics
  import ColorUtils
  import Colors
  import GridMath

  // ---------------------------------------------------------------------------
  // What one call of drawGrid draws

  /** `hexToNumber(COLORS.centerBlockFillColor)`; ColorUtils.BlackColour proves the value. */
  const CenterBlockFill: Colour := Some(0)
  /** `hexToNumber(COLORS.centerBlockStrokeColor)`; ColorUtils.CenterBlockStrokeColour proves the value. */
  const CenterBlockStroke: Colour := Some(0xffcc00)
  /** `hexToNumber(COLORS.gridLines)`; ColorUtils.GridLinesColour proves the value. */
  const GridLineColour: Colour := Some(0x333355)

  /** `Math.min(GridConfig.cornerRadius, gridSize / 2)`. */
  function CornerRadius(grid: GridConfig): (r: real)
    ensures r <= grid.cornerRadius as real && r <= grid.size as real / 2.0
    ensures r == grid.cornerRadius as real || r == grid.size as real / 2.0
  {
    var half := grid.size as real / 2.0;
    if grid.cornerRadius as real <= half then grid.cornerRadius as real else half
  }

  /** The outline of the cell in column `x`, row `y` of the chunk, in chunk-local pixels. */
  function CellOutline(grid: GridConfig, x: int, y: int): DrawCommand {
    StrokeRoundedRect(x * grid.size, y * grid.size, grid.size, grid.size, CornerRadius(grid))
  }

  /** The outlines of row `y`, left to right. */
  function RowOutlines(grid: GridConfig, cc: ChunkConfig, y: int): (s: seq<DrawCommand>)
    requires cc.Valid()
    ensures |s| == cc.cols
  {
    seq(cc.cols, x requires 0 <= x < cc.cols => CellOutline(grid, x, y))
  }

  /** The outlines of rows `0 .. n-1`, row by row. */
  function Outlines(grid: GridConfig, cc: ChunkConfig, n: nat): (s: seq<DrawCommand>)
    requires cc.Valid()
    ensures |s| == n * cc.cols
  {
    if n == 0 then [] else Outlines(grid, cc, n - 1) + RowOutlines(grid, cc, n - 1)
  }

  /** Every cell outline of the chunk in the order the nested loops stroke them. */
  function CellOutlines(grid: GridConfig, cc: ChunkConfig): seq<DrawCommand>
    requires cc.Valid()
  {
    Outlines(grid, cc, cc.rows)
  }

  /** Top-left cell of the 4x4 centre block: `floor(cols / 2) - 2`, `floor(rows / 2) - 2`. */
  function CenterBlockCol(cc: ChunkConfig): int
    requires cc.Valid()
  {
    cc.cols / 2 - 2
  }

  function CenterBlockRow(cc: ChunkConfig): int
    requires cc.Valid()
  {
    cc.rows / 2 - 2
  }

  /** The fill and the width-4 stroke of the centre block, drawn whether or not the grid is shown. */
  function CenterBlockCommands(grid: GridConfig, cc: ChunkConfig): seq<DrawCommand>
    requires cc.Valid()
  {
    var blockX := CenterBlockCol(cc) * grid.size;
    var blockY := CenterBlockRow(cc) * grid.size;
    var r := CornerRadius(grid);
    [ FillStyle(CenterBlockFill, Colors.CenterBlockFillAlpha),
      FillRoundedRect(blockX, blockY, 4 * grid.size, 4 * grid.size, r),
      CenterBlockStrokeStyle(),
      StrokeRoundedRect(blockX, blockY, 4 * grid.size, 4 * grid.size, r) ]
  }

  /** The line style of the centre block's border: width 4. */
  function CenterBlockStrokeStyle(): DrawCommand {
    LineStyle(4, CenterBlockStroke, 1.0)
  }

  /** The line style the cell outlines are stroked with. */
  function GridLineStyle(): DrawCommand {
    LineStyle(1, GridLineColour, 1.0)
  }

  /** Everything on the chunk's graphics object after `drawGrid`. */
  function GridCommands(grid: GridConfig, cc: ChunkConfig): seq<DrawCommand>
    requires cc.Valid()
  {
    (if grid.showGrid then [GridLineStyle()] + CellOutlines(grid, cc) else [])
    + CenterBlockCommands(grid, cc)
  }

  // ---------------------------------------------------------------------------
  // Properties of the drawing

  /** The outline at row-major position `y * cols + x` is the one of cell `(x, y)`. */
  lemma {:induction false} OutlineAt(grid: GridConfig, cc: ChunkConfig, n: nat, x: int, y: int)
    requires cc.Valid() && 0 <= x < cc.cols && 0 <= y < n
    ensures 0 <= y * cc.cols + x < |Outlines(grid, cc, n)|
    ensures Outlines(grid, cc, n)[y * cc.cols + x] == CellOutline(grid, x, y)
  {
    GridMath.MulMonotone(y + 1, n, cc.cols);
    assert (y + 1) * cc.cols == y * cc.cols + cc.cols;
    if y < n - 1 {
      OutlineAt(grid, cc, n - 1, x, y);
    } else {
      assert |Outlines(grid, cc, n - 1)| == y * cc.cols;
    }
  }

  /** Whether a stroked rectangle covers pixel `(px, py)`. */
  predicate Covers(c: DrawCommand, px: int, py: int) {
    c.StrokeRoundedRect? && c.x <= px < c.x + c.width && c.y <= py < c.y + c.height
  }

  /** A cell outline covers a pixel exactly when floor division sends the pixel to that cell. */
  lemma CellOutlineCovers(grid: GridConfig, x: int, y: int, px: int, py: int)
    requires grid.size > 0
    ensures Covers(CellOutline(grid, x, y), px, py) <==> x == px / grid.size && y == py / grid.size
  {
    assert x * grid.size + grid.size == (x + 1) * grid.size;
    assert y * grid.size + grid.size == (y + 1) * grid.size;
    GridMath.FloorDivCell(px, grid.size, x);
    GridMath.FloorDivCell(py, grid.size, y);
  }

  /** An outline that covers the pixel is the one at the pixel's row-major cell index, inside the chunk. */
  lemma CoveringOutline(grid: GridConfig, cc: ChunkConfig, i: int, px: int, py: int)
    requires grid.Valid() && cc.Valid()
    requires 0 <= i < |CellOutlines(grid, cc)| && Covers(CellOutlines(grid, cc)[i], px, py)
    ensures i == (py / grid.size) * cc.cols + px / grid.size
    ensures 0 <= px < cc.cols * grid.size && 0 <= py < cc.rows * grid.size
  {
    var s := grid.size;
    GridMath.RowMajorSplit(i, cc.cols, cc.rows);
    var x, y := i % cc.cols, i / cc.cols;
    OutlineAt(grid, cc, cc.rows, x, y);
    CellOutlineCovers(grid, x, y, px, py);
    GridMath.FloorDivCell(px, s, x);
    GridMath.FloorDivCell(py, s, y);
    GridMath.MulMonotone(0, x, s);
    GridMath.MulMonotone(x + 1, cc.cols, s);
    GridMath.MulMonotone(0, y, s);
    GridMath.MulMonotone(y + 1, cc.rows, s);
  }

  /** A pixel inside the chunk is covered by the outline of its own cell. */
  lemma PixelHasOutline(grid: GridConfig, cc: ChunkConfig, px: int, py: int)
    requires grid.Valid() && cc.Valid()
    requires 0 <= px < cc.cols * grid.size && 0 <= py < cc.rows * grid.size
    ensures var i := (py / grid.size) * cc.cols + px / grid.size;
      0 <= i < |CellOutlines(grid, cc)| && Covers(CellOutlines(grid, cc)[i], px, py)
  {
    var s := grid.size;
    var x, y := px / s, py / s;
    GridMath.FloorDivCell(px, s, x);
    GridMath.FloorDivCell(py, s, y);
    if x >= cc.cols {
      GridMath.MulMonotone(cc.cols, x, s);
    }
    if y >= cc.rows {
      GridMath.MulMonotone(cc.rows, y, s);
    }
    OutlineAt(grid, cc, cc.rows, x, y);
    CellOutlineCovers(grid, x, y, px, py);
  }

  /**
   * The cell outlines tile the chunk: a pixel of `[0, cols*size) x [0, rows*size)`
   * lies in exactly one outline, and a pixel outside it in none.
   */
  lemma OutlinesTile(grid: GridConfig, cc: ChunkConfig, px: int, py: int)
    requires grid.Valid() && cc.Valid()
    ensures var o := CellOutlines(grid, cc);
      forall i, j :: 0 <= i < |o| && 0 <= j < |o| && Covers(o[i], px, py) && Covers(o[j], px, py) ==> i == j
    ensures var o := CellOutlines(grid, cc);
      (exists i :: 0 <= i < |o| && Covers(o[i], px, py))
      <==> 0 <= px < cc.cols * grid.size && 0 <= py < cc.rows * grid.size
  {
    var o := CellOutlines(grid, cc);
    forall i | 0 <= i < |o| && Covers(o[i], px, py)
      ensures i == (py / grid.size) * cc.cols + px / grid.size
      ensures 0 <= px < cc.cols * grid.size && 0 <= py < cc.rows * grid.size
    {
      CoveringOutline(grid, cc, i, px, py);
    }
    if 0 <= px < cc.cols * grid.size && 0 <= py < cc.rows * grid.size {
      PixelHasOutline(grid, cc, px, py);
    }
  }

  /** How many of `s` are outlines of a single `size`-pixel cell. */
  function CountCellOutlines(s: seq<DrawCommand>, size: int): nat {
    if s == [] then 0
    else CountCellOutlines(s[..|s| - 1], size)
         + (if s[|s| - 1].StrokeRoundedRect? && s[|s| - 1].width == size then 1 else 0)
  }

  lemma {:induction false} CountCellOutlinesAppend(a: seq<DrawCommand>, b: seq<DrawCommand>, size: int)
    ensures CountCellOutlines(a + b, size) == CountCellOutlines(a, size) + CountCellOutlines(b, size)
  {
    if b != [] {
      assert (a + b)[..|a + b| - 1] == a + b[..|b| - 1];
      CountCellOutlinesAppend(a, b[..|b| - 1], size);
    } else {
      assert a + b == a;
    }
  }

  lemma {:induction false} CountCellOutlinesNone(s: seq<DrawCommand>, size: int)
    requires forall i :: 0 <= i < |s| ==> !(s[i].StrokeRoundedRect? && s[i].width == size)
    ensures CountCellOutlines(s, size) == 0
  {
    if s != [] {
      CountCellOutlinesNone(s[..|s| - 1], size);
    }
  }

  lemma {:induction false} OutlinesCount(grid: GridConfig, cc: ChunkConfig, n: nat)
    requires cc.Valid()
    ensures CountCellOutlines(Outlines(grid, cc, n), grid.size) == n * cc.cols
  {
    if n > 0 {
      OutlinesCount(grid, cc, n - 1);
      CountCellOutlinesAppend(Outlines(grid, cc, n - 1), RowOutlines(grid, cc, n - 1), grid.size);
      RowCount(grid, cc, n - 1, cc.cols);
      assert RowOutlines(grid, cc, n - 1)[..cc.cols] == RowOutlines(grid, cc, n - 1);
      assert Outlines(grid, cc, n) == Outlines(grid, cc, n - 1) + RowOutlines(grid, cc, n - 1);
      assert n * cc.cols == (n - 1) * cc.cols + cc.cols;
    }
  }

  lemma {:induction false} RowCount(grid: GridConfig, cc: ChunkConfig, y: int, k: nat)
    requires cc.Valid() && k <= cc.cols
    ensures CountCellOutlines(RowOutlines(grid, cc, y)[..k], grid.size) == k
  {
    if k > 0 {
      var r := RowOutlines(grid, cc, y);
      assert r[..k][..k - 1] == r[..k - 1];
      RowCount(grid, cc, y, k - 1);
    }
  }

  /**
   * With the grid shown exactly `rows * cols` cell outlines are stroked; with it
   * hidden none are, while the centre block is drawn either way.
   */
  lemma OutlineCount(grid: GridConfig, cc: ChunkConfig)
    requires grid.Valid() && cc.Valid()
    ensures CountCellOutlines(GridCommands(grid, cc), grid.size)
         == if grid.showGrid then cc.rows * cc.cols else 0
    ensures GridCommands(grid, cc)[|GridCommands(grid, cc)| - 4..] == CenterBlockCommands(grid, cc)
  {
    var head := if grid.showGrid then [GridLineStyle()] + CellOutlines(grid, cc) else [];
    var tail := CenterBlockCommands(grid, cc);
    assert GridCommands(grid, cc) == head + tail;
    assert (head + tail)[|head + tail| - 4..] == tail;
    CountCellOutlinesAppend(head, tail, grid.size);
    if grid.showGrid {
      CountCellOutlinesAppend([GridLineStyle()], CellOutlines(grid, cc), grid.size);
      CountCellOutlinesNone([GridLineStyle()], grid.size);
      OutlinesCount(grid, cc, cc.rows);
    } else {
      CountCellOutlinesNone([], grid.size);
    }
    assert tail[3].width == 4 * grid.size;
    CountCellOutlinesNone(tail, grid.size);
  }

  /**
   * Order of emission: the grid line style, then every cell outline, then the
   * centre-block fill, then its stroke with line width 4.
   */
  lemma EmissionOrder(grid: GridConfig, cc: ChunkConfig)
    requires grid.Valid() && cc.Valid() && grid.showGrid
    ensures var g := GridCommands(grid, cc);
      var n := cc.rows * cc.cols;
      && |g| == n + 5
      && g[0] == GridLineStyle()
      && (forall i :: 1 <= i <= n ==> g[i].StrokeRoundedRect? && g[i].width == grid.size)
      && g[n + 1].FillStyle? && g[n + 2].FillRoundedRect?
      && g[n + 3] == CenterBlockStrokeStyle()
      && g[n + 4].StrokeRoundedRect? && g[n + 4].width == 4 * grid.size
  {
    var n := cc.rows * cc.cols;
    var o := CellOutlines(grid, cc);
    forall i | 0 <= i < n
      ensures o[i].StrokeRoundedRect? && o[i].width == grid.size
    {
      GridMath.RowMajorSplit(i, cc.cols, cc.rows);
      var x, y := i % cc.cols, i / cc.cols;
      OutlineAt(grid, cc, cc.rows, x, y);
    }
  }

  /** The 4x4 centre block lies inside the chunk exactly when the chunk is at least 4 cells each way. */
  lemma CenterBlockInsideChunk(cc: ChunkConfig)
    requires cc.Valid()
    ensures (0 <= CenterBlockCol(cc) && CenterBlockCol(cc) + 4 <= cc.cols
             && 0 <= CenterBlockRow(cc) && CenterBlockRow(cc) + 4 <= cc.rows)
        <==> cc.cols >= 4 && cc.rows >= 4
  {
  }

  // ---------------------------------------------------------------------------
  // The chunk object

  class Chunk {
    /** Chunk column and row in the world grid. */
    const col: int
    const row: int
    const grid: GridConfig
    const chunkConfig: ChunkConfig
    /** Pixel position of the chunk's container. */
    const containerX: int
    const containerY: int
    const graphics: Graphics
    /** How many times the container has been destroyed. */
    ghost var destroyCount: nat

    constructor (col: int, row: int, grid: GridConfig, chunkConfig: ChunkConfig)
      requires grid.Valid() && chunkConfig.Valid()
      ensures this.col == col && this.row == row
      ensures this.grid == grid && this.chunkConfig == chunkConfig
      ensures containerX == col * grid.size * chunkConfig.cols
      ensures containerY == row * grid.size * chunkConfig.rows
      ensures fresh(graphics) && graphics.commands == GridCommands(grid, chunkConfig)
      ensures destroyCount == 0
    {
      this.col := col;
      this.row := row;
      this.grid := grid;
      this.chunkConfig := chunkConfig;
      containerX := col * grid.size * chunkConfig.cols;
      containerY := row * grid.size * chunkConfig.rows;
      graphics := new Graphics();
      destroyCount := 0;
      new;
      DrawGrid();
    }

    /** Clears the graphics object and draws the cell outlines and the centre block. */
    method DrawGrid()
      requires chunkConfig.Valid()
      modifies graphics
      ensures graphics.commands == GridCommands(grid, chunkConfig)
    {
      var cornerRadius := CornerRadius(grid);
      graphics.Clear();
      if grid.showGrid {
        var gridLineColorNum := ColorUtils.HexToNumber(Colors.GridLines);
        ColorUtils.GridLinesColour();
        graphics.Draw(LineStyle(1, gridLineColorNum, 1.0));
        StrokeCells(cornerRadius);
      }
      DrawCenterBlock(cornerRadius);
    }

    /** The nested loops of drawGrid: one rounded outline per cell, row by row. */
    method StrokeCells(cornerRadius: real)
      requires chunkConfig.Valid() && cornerRadius == CornerRadius(grid)
      modifies graphics
      ensures graphics.commands == old(graphics.commands) + CellOutlines(grid, chunkConfig)
    {
      ghost var before := graphics.commands;
      var y := 0;
      while y < chunkConfig.rows
        invariant 0 <= y <= chunkConfig.rows
        invariant graphics.commands == before + Outlines(grid, chunkConfig, y)
      {
        var x := 0;
        while x < chunkConfig.cols
          invariant 0 <= x <= chunkConfig.cols
          invariant graphics.commands
                 == before + Outlines(grid, chunkConfig, y) + RowOutlines(grid, chunkConfig, y)[..x]
        {
          var px := x * grid.size;
          var py := y * grid.size;
          graphics.Draw(StrokeRoundedRect(px, py, grid.size, grid.size, cornerRadius));
          assert RowOutlines(grid, chunkConfig, y)[..x + 1]
              == RowOutlines(grid, chunkConfig, y)[..x] + [CellOutline(grid, x, y)];
          x := x + 1;
        }
        assert RowOutlines(grid, chunkConfig, y)[..chunkConfig.cols] == RowOutlines(grid, chunkConfig, y);
        y := y + 1;
      }
    }

    /** The tail of drawGrid: the 4x4 centre block, filled and then stroked with width 4. */
    method DrawCenterBlock(cornerRadius: real)
      requires chunkConfig.Valid() && cornerRadius == CornerRadius(grid)
      modifies graphics
      ensures graphics.commands == old(graphics.commands) + CenterBlockCommands(grid, chunkConfig)
    {
      var centerCol := chunkConfig.cols / 2 - 2;
      var centerRow := chunkConfig.rows / 2 - 2;
      var blockX := centerCol * grid.size;
      var blockY := centerRow * grid.size;
      var blockWidth := 4 * grid.size;
      var blockHeight := 4 * grid.size;
      var fillColorNum := ColorUtils.HexToNumber(Colors.CenterBlockFillColor);
      ColorUtils.BlackColour();
      var fillAlpha := Colors.CenterBlockFillAlpha;
      var strokeColorNum := ColorUtils.HexToNumber(Colors.CenterBlockStrokeColor);
      ColorUtils.CenterBlockStrokeColour();
      graphics.Draw(FillStyle(fillColorNum, fillAlpha));
      graphics.Draw(FillRoundedRect(blockX, blockY, blockWidth, blockHeight, cornerRadius));
      graphics.Draw(LineStyle(4, strokeColorNum, 1.0));
      graphics.Draw(StrokeRoundedRect(blockX, blockY, blockWidth, blockHeight, cornerRadius));
    }

    /** `container.destroy()`. */
    method DestroyContainer()
      modifies this
      ensures destroyCount == old(destroyCount) + 1
    {
      destroyCount := destroyCount + 1;
    }
  }

  /** Redrawing is idempotent: the second `drawGrid` leaves exactly what the first one drew. */
  method RedrawTwice(c: Chunk)
    requires c.chunkConfig.Valid()
    modifies c.graphics
    ensures c.graphics.commands == GridCommands(c.grid, c.chunkConfig)
  {
    c.DrawGrid();
    ghost var once := c.graphics.commands;
    c.DrawGrid();
    assert c.graphics.commands == once;
  }
}
