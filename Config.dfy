/**
 * Grid and chunk configuration (src/constants/config.ts) and the colour
 * palette (src/constants/colors.ts).
 *
 * `GridConfig` only defines `size`, `cols` and `rows` (32, 12 and 10).
 * `Chunk` also reads `GridConfig.cornerRadius`, `GridConfig.showGrid` and a
 * `ChunkConfig` with `cols` and `rows`, none of which is defined anywhere, so
 * all of them are parameters here.
 */
module Config {

  /** The grid settings: cell size in pixels, grid extent in cells, and the two chunk drawing options. */
  datatype GridConfig = GridConfig(size: int, cols: int, rows: int, cornerRadius: int, showGrid: bool)
  {
    /** The dimensions a scene can draw: positive cell size and extent. */
    predicate ValidDims() {
      size > 0 && cols > 0 && rows > 0
    }

    /** Everything a chunk reads is positive as well. */
    predicate Valid() {
      ValidDims() && cornerRadius > 0
    }
  }

  /** How many cells a chunk spans horizontally and vertically. */
  datatype ChunkConfig = ChunkConfig(cols: int, rows: int)
  {
    predicate Valid() {
      cols > 0 && rows > 0
    }
  }

  /** The defined fields of src/constants/config.ts; the chunk options are left to the caller. */
  function ShippedGrid(cornerRadius: int, showGrid: bool): (g: GridConfig)
    ensures g.ValidDims()
    ensures cornerRadius > 0 ==> g.Valid()
  {
    GridConfig(32, 12, 10, cornerRadius, showGrid)
  }
}

/** The colour strings of src/constants/colors.ts. */
module Colors {
  const Proton: string := "#ff3366"
  const CenterCircleFill: string := "#000000"
  const CenterCircleStroke: string := "#000000"
  const CenterBlockFillColor: string := "#000000"
  /** Opacity of the centre block fill. */
  const CenterBlockFillAlpha: real := 1.0
  const CenterBlockStrokeColor: string := "#ffcc00"
  const GridLines: string := "#333355"
}
