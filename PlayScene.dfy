/**
 * src/scenes/PlayScene.ts, `create`: a fixed grid of `cols + 1` vertical and
 * `rows + 1` horizontal lines, a proton marker in cell (3, 4), and a large
 * circle inscribed in the 3x3 block of cells at the grid's centre.
 */
module PlayScene {
  import opened Wrappers
  import opened Config
  import opened Graphics
  import ColorUtils
  import Colors
  import GridMath

  /** One `lineBetween(x1, y1, x2, y2)` call. */
  datatype Segment = Segment(x1: int, y1: int, x2: int, y2: int)

  /** The border set by `setStrokeStyle`. */
  datatype StrokeStyle = StrokeStyle(width: int, colour: Colour)

  /** A circle game object: centre, radius, fill and optional border. */
  datatype Circle = Circle(x: real, y: real, radius: real, fill: Colour, stroke: Option<StrokeStyle>)

  /** A text game object at its top-left position. */
  datatype Label = Label(x: real, y: real, text: string)

  /** Everything `create` adds to the scene. */
  datatype Layout = Layout(
    lineStyle: DrawCommand,
    lines: seq<Segment>,
    proton: Circle,
    protonLabel: Label,
    centerCircle: Circle,
    centerLabel: Label)

  /** Every endpoint lies in `[0, cols * size] x [0, rows * size]`. */
  predicate InsideGrid(s: Segment, grid: GridConfig) {
    && 0 <= s.x1 <= grid.cols * grid.size && 0 <= s.x2 <= grid.cols * grid.size
    && 0 <= s.y1 <= grid.rows * grid.size && 0 <= s.y2 <= grid.rows * grid.size
  }

  // ---------------------------------------------------------------------------
  // The proton and the centre circle

  /** `hexToNumber(COLORS.proton)`; ColorUtils.ProtonColour proves the value. */
  const ProtonFill: Colour := Some(0xff3366)
  /** `hexToNumber(COLORS.centerCircleFill)`; ColorUtils.BlackColour proves the value. */
  const CenterCircleFill: Colour := Some(0)
  /** `hexToNumber(COLORS.centerCircleStroke)`; ColorUtils.BlackColour proves the value. */
  const CenterCircleStroke: Colour := Some(0)

  /** The proton sits at the centre of cell (3, 4): column 3 and row 4 plus half a cell. */
  function ProtonCircle(grid: GridConfig): Circle {
    var half := grid.size as real / 2.0;
    Circle((3 * grid.size) as real + half, (4 * grid.size) as real + half, 24.0,
           ProtonFill, None)
  }

  /** Top-left cell of the centre 3x3 block: `floor(cols / 2) - 1`, `floor(rows / 2) - 1`. */
  function CenterBlockCol(grid: GridConfig): int
    requires grid.ValidDims()
  {
    grid.cols / 2 - 1
  }

  function CenterBlockRow(grid: GridConfig): int
    requires grid.ValidDims()
  {
    grid.rows / 2 - 1
  }

  /** The big centre circle: the block corner plus `3 * size / 2` on each axis, of radius `3 * size / 2`. */
  function CenterCircle(grid: GridConfig): Circle
    requires grid.ValidDims()
  {
    var centerBlockX := (CenterBlockCol(grid) * grid.size) as real;
    var centerBlockY := (CenterBlockRow(grid) * grid.size) as real;
    var halfBlock := (3 * grid.size) as real / 2.0;
    Circle(centerBlockX + halfBlock, centerBlockY + halfBlock, halfBlock,
           CenterCircleFill,
           Some(StrokeStyle(4, CenterCircleStroke)))
  }

  /** The centre circle is inscribed in the 3x3 block: it touches all four sides of the block. */
  lemma CenterCircleInscribed(grid: GridConfig)
    requires grid.ValidDims()
    ensures var c := CenterCircle(grid);
      var left := (CenterBlockCol(grid) * grid.size) as real;
      var top := (CenterBlockRow(grid) * grid.size) as real;
      && c.x - c.radius == left && c.x + c.radius == left + (3 * grid.size) as real
      && c.y - c.radius == top && c.y + c.radius == top + (3 * grid.size) as real
  {
  }

  /** The 3x3 block lies inside the grid exactly when the grid is at least 3 cells each way. */
  lemma CenterBlockInsideGrid(grid: GridConfig)
    requires grid.ValidDims()
    ensures (0 <= CenterBlockCol(grid) && CenterBlockCol(grid) + 3 <= grid.cols
             && 0 <= CenterBlockRow(grid) && CenterBlockRow(grid) + 3 <= grid.rows)
        <==> grid.cols >= 3 && grid.rows >= 3
  {
  }

  /** With the shipped grid (32-pixel cells, 12 x 10) the centre circle is at (208, 176) with radius 48, the proton at (112, 144). */
  lemma ShippedPositions(cornerRadius: int, showGrid: bool)
    ensures var g := ShippedGrid(cornerRadius, showGrid);
      CenterCircle(g).x == 208.0 && CenterCircle(g).y == 176.0 && CenterCircle(g).radius == 48.0
      && ProtonCircle(g).x == 112.0 && ProtonCircle(g).y == 144.0 && ProtonCircle(g).radius == 24.0
  {
    var g := ShippedGrid(cornerRadius, showGrid);
    assert CenterBlockCol(g) == 5 && CenterBlockRow(g) == 4;
  }

  // ---------------------------------------------------------------------------
  // create

  /**
   * The segments of the two line loops of `create`: the `cols + 1` vertical
   * lines left to right, then the `rows + 1` horizontal lines top to bottom,
   * each spanning the whole grid.
   */
  predicate IsGridLines(lines: seq<Segment>, grid: GridConfig)
    requires grid.ValidDims()
  {
    && |lines| == (grid.cols + 1) + (grid.rows + 1)
    && (forall x :: 0 <= x <= grid.cols ==>
          lines[x] == Segment(x * grid.size, 0, x * grid.size, grid.rows * grid.size))
    && (forall y :: 0 <= y <= grid.rows ==>
          lines[grid.cols + 1 + y] == Segment(0, y * grid.size, grid.cols * grid.size, y * grid.size))
  }

  /** Every grid line stays inside the grid's pixel rectangle. */
  lemma GridLinesInside(lines: seq<Segment>, grid: GridConfig)
    requires grid.ValidDims() && IsGridLines(lines, grid)
    ensures forall i :: 0 <= i < |lines| ==> InsideGrid(lines[i], grid)
  {
    var gridSize, cols, rows := grid.size, grid.cols, grid.rows;
    GridMath.MulMonotone(0, cols, gridSize);
    GridMath.MulMonotone(0, rows, gridSize);
    forall i | 0 <= i < |lines|
      ensures InsideGrid(lines[i], grid)
    {
      if i <= cols {
        assert lines[i] == Segment(i * gridSize, 0, i * gridSize, rows * gridSize);
        GridMath.MulMonotone(0, i, gridSize);
        GridMath.MulMonotone(i, cols, gridSize);
      } else {
        var j := i - cols - 1;
        assert lines[cols + 1 + j] == Segment(0, j * gridSize, cols * gridSize, j * gridSize);
        GridMath.MulMonotone(0, j, gridSize);
        GridMath.MulMonotone(j, rows, gridSize);
      }
    }
  }

  /** The two line loops of `create`: every vertical line, then every horizontal one. */
  method GridLines(grid: GridConfig) returns (lines: seq<Segment>)
    requires grid.ValidDims()
    ensures IsGridLines(lines, grid)
  {
    var gridSize := grid.size;
    var cols := grid.cols;
    var rows := grid.rows;
    lines := [];

    var x := 0;
    while x <= cols
      invariant 0 <= x <= cols + 1 && |lines| == x
      invariant forall i :: 0 <= i < x ==> lines[i] == Segment(i * gridSize, 0, i * gridSize, rows * gridSize)
    {
      lines := lines + [Segment(x * gridSize, 0, x * gridSize, rows * gridSize)];
      x := x + 1;
    }

    var y := 0;
    while y <= rows
      invariant 0 <= y <= rows + 1 && |lines| == cols + 1 + y
      invariant forall i :: 0 <= i <= cols ==> lines[i] == Segment(i * gridSize, 0, i * gridSize, rows * gridSize)
      invariant forall j :: 0 <= j < y ==> lines[cols + 1 + j] == Segment(0, j * gridSize, cols * gridSize, j * gridSize)
    {
      lines := lines + [Segment(0, y * gridSize, cols * gridSize, y * gridSize)];
      y := y + 1;
    }
  }

  /** The proton node of `create` and its "P" label. */
  method AddProton(grid: GridConfig) returns (proton: Circle, protonLabel: Label)
    ensures proton == ProtonCircle(grid)
    ensures protonLabel == Label(proton.x - 12.0, proton.y - 16.0, "P")
  {
    var gridSize := grid.size;
    var protonColorNum := ColorUtils.HexToNumber(Colors.Proton);
    ColorUtils.ProtonColour();
    proton := Circle((3 * gridSize) as real + gridSize as real / 2.0,
                     (4 * gridSize) as real + gridSize as real / 2.0, 24.0, protonColorNum, None);
    protonLabel := Label(proton.x - 12.0, proton.y - 16.0, "P");
  }

  /** The centre 3x3 circle block of `create`: the circle, its width-4 border and its "CENTER" label. */
  method AddCenterCircle(grid: GridConfig) returns (centerCircle: Circle, centerLabel: Label)
    requires grid.ValidDims()
    ensures centerCircle == CenterCircle(grid)
    ensures centerLabel == Label(centerCircle.x - 24.0, centerCircle.y - 18.0, "CENTER")
  {
    var gridSize := grid.size;
    var centerCol := grid.cols / 2 - 1;
    var centerRow := grid.rows / 2 - 1;
    var centerBlockX := centerCol * gridSize;
    var centerBlockY := centerRow * gridSize;
    var centerX := centerBlockX as real + (3 * gridSize) as real / 2.0;
    var centerY := centerBlockY as real + (3 * gridSize) as real / 2.0;
    var centerRadius := (3 * gridSize) as real / 2.0;
    var centerCircleColorNum := ColorUtils.HexToNumber(Colors.CenterCircleFill);
    var centerCircleStrokeColorNum := ColorUtils.HexToNumber(Colors.CenterCircleStroke);
    ColorUtils.BlackColour();
    centerCircle := Circle(centerX, centerY, centerRadius, centerCircleColorNum,
                           Some(StrokeStyle(4, centerCircleStrokeColorNum)));
    centerLabel := Label(centerX - 24.0, centerY - 18.0, "CENTER");
  }

  /** `create`: the grid lines, then the proton, the centre circle and their labels. */
  method Create(grid: GridConfig) returns (layout: Layout)
    requires grid.ValidDims()
    ensures IsGridLines(layout.lines, grid)
    ensures layout.lineStyle == LineStyle(1, Some(0x333355), 1.0)
    ensures layout.proton == ProtonCircle(grid) && layout.centerCircle == CenterCircle(grid)
    ensures layout.protonLabel == Label(layout.proton.x - 12.0, layout.proton.y - 16.0, "P")
    ensures layout.centerLabel == Label(layout.centerCircle.x - 24.0, layout.centerCircle.y - 18.0, "CENTER")
  {
    var lines := GridLines(grid);
    var proton, protonLabel := AddProton(grid);
    var centerCircle, centerLabel := AddCenterCircle(grid);
    layout := Layout(LineStyle(1, Some(0x333355), 1.0), lines, proton, protonLabel, centerCircle, centerLabel);
  }
}
