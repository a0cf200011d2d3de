# Elementz grid, chunks and colours in Dafny

A model of the grid and chunk bookkeeping of the Elementz Phaser game, with
proofs about it:

- **Chunk streaming** (`Streaming`, `ChunkManager.dfy`). The manager maps
  world pixels to chunk coordinates by floor division. On `Update` it finds
  the chunk under the camera centre. When that chunk is the one seen last,
  it does nothing. Otherwise it loads every chunk within `loadRadius`
  (Chebyshev distance) that is missing and destroys every loaded chunk that
  is no longer needed. The loaded chunks are a `map` field the methods
  reassign; chunks are objects, and destroying one bumps a ghost counter.
- **Per-chunk drawing** (`Chunks`, `Chunk.dfy`). A chunk's container offset
  comes from its coordinate. `DrawGrid` clears the chunk's drawing surface,
  strokes one rounded outline per cell with nested loops, then fills and
  strokes a 4x4 centre block. The drawing surface (`Graphics.dfy`) records
  the calls it receives as a list of draw commands.
- **The play scene** (`PlayScene`, `PlayScene.dfy`). `Create` lays out
  `cols + 1` vertical and `rows + 1` horizontal grid lines, a proton circle
  and a circle inscribed in the centre 3x3 block.
- **`hexToNumber`** (`ColorUtils`, `ColorUtils.dfy`). It drops the first
  character and reads the rest as `parseInt(_, 16)` does, following section
  19.2.5 of ECMAScript 2023. The model proves a round trip against six-digit
  formatting, case insensitivity, where parsing stops, and the value of every
  colour the code passes to `hexToNumber`. NaN is `None`.
- **Splitters** (`Entities`, `Splitter.dfy`). A class whose `selected` flag is
  the only field that changes after construction; drawing appends six
  commands whose outline colour depends on that flag.

`Config.dfy` holds the grid configuration and the colour strings.
`GridMath.dfy` holds small lemmas about integer multiplication and floor
division. `Wrappers.dfy` holds `Option`.

`GridConfig.cornerRadius`, `GridConfig.showGrid` and `ChunkConfig` are read
by the chunk code but defined nowhere in src/constants/config.ts. They are
parameters here: positive integers and a boolean.

## Model

| member | source | states |
|---|---|---|
| ColorUtils.HexToNumber | src/utils/colorUtils.ts:9-11 | `parseInt(hex.slice(1), 16)`: a string of at most one character gives NaN |
| ColorUtils.FirstCharacterDropped | src/utils/colorUtils.ts:10 | whatever the first character is, the result is `parseInt` of the rest |
| ColorUtils.DigitValue | src/utils/colorUtils.ts:10 | every radix-16 digit is worth less than 16 |
| ColorUtils.LeadingHexDigits | src/utils/colorUtils.ts:10 | the run `parseInt` reads consists of hexadecimal digits only |
| ColorUtils.ParseUnsignedDigits | src/utils/colorUtils.ts:10 | text that starts with a digit and has no "0x" prefix reads as the value of its leading digit run |
| ColorUtils.ParseDigitsThenStop | src/utils/colorUtils.ts:10 | digits followed by a non-digit parse to exactly the digits' value |
| ColorUtils.StopsAtFirstNonHex | src/utils/colorUtils.ts:10 | `hexToNumber` reads the digits after the first character up to the first non-digit |
| ColorUtils.NoLeadingDigitIsNaN | src/utils/colorUtils.ts:10 | no digit, sign or white space after the first character gives NaN |
| ColorUtils.WellFormedColour | src/utils/colorUtils.ts:3-11 | "#" plus six hex digits gives the digits' base-16 value, in `[0, 0xFFFFFF]` |
| ColorUtils.ToHex | src/utils/colorUtils.ts:3-8 | six-digit formatting (the inverse direction): `w` hexadecimal digits |
| ColorUtils.SixDigitHex | src/utils/colorUtils.ts:3-8 | a colour is written with exactly six hexadecimal digits |
| ColorUtils.HexValueOfToHex | src/utils/colorUtils.ts:3-8 | reading back the digits written for `n < 16^w` gives `n` |
| ColorUtils.HexValueBound | src/utils/colorUtils.ts:4-10 | `k` hexadecimal digits are worth less than `16^k` |
| ColorUtils.SixDigitRoundTrip | src/utils/colorUtils.ts:4-10 | `hexToNumber("#" + sixDigitHex(n)) == n` for every `n < 2^24` |
| ColorUtils.CaseInsensitive | src/utils/colorUtils.ts:10 | lower-casing the text does not change what `parseInt(_, 16)` returns |
| ColorUtils.ProtonColour | src/constants/colors.ts:6 | "#ff3366" gives 0xff3366 |
| ColorUtils.BlackColour | src/constants/colors.ts:7-11 | the centre circle fill, the centre circle stroke and the centre block fill give 0 |
| ColorUtils.CenterBlockStrokeColour | src/constants/colors.ts:13 | "#ffcc00" gives 0xffcc00 |
| ColorUtils.GridLinesColour | src/constants/colors.ts:18 | "#333355" gives 0x333355 |
| Config.ShippedGrid | src/constants/config.ts:5-9 | the shipped grid (size 32, 12 x 10) has positive dimensions |
| Chunks.CornerRadius | src/chunks/Chunk.ts:38 | the radius is `min(cornerRadius, size / 2)`: never more than half a cell, and equal to one of the two |
| Chunks.RowOutlines | src/chunks/Chunk.ts:53-58 | one row of the inner loop has `cols` outlines |
| Chunks.Outlines | src/chunks/Chunk.ts:52-59 | the first `n` rows of the nested loops have `n * cols` outlines |
| Chunks.OutlineAt | src/chunks/Chunk.ts:52-59 | the outline at row-major position `y * cols + x` is cell `(x, y)`'s, at `(x * size, y * size)` with side `size` |
| Chunks.CellOutlineCovers | src/chunks/Chunk.ts:54-57 | a cell outline covers a pixel exactly when floor division sends the pixel to that cell |
| Chunks.CoveringOutline | src/chunks/Chunk.ts:52-59 | an outline covering a pixel is the one at the pixel's cell index, and the pixel is inside the chunk |
| Chunks.PixelHasOutline | src/chunks/Chunk.ts:52-59 | a pixel inside the chunk is covered by its own cell's outline |
| Chunks.OutlinesTile | src/chunks/Chunk.ts:44-59 | the outlines tile `[0, cols*size) x [0, rows*size)`: at most one covers any pixel, and one does exactly when the pixel is inside |
| Chunks.OutlinesCount | src/chunks/Chunk.ts:52-59 | the first `n` rows hold `n * cols` cell outlines |
| Chunks.RowCount | src/chunks/Chunk.ts:53-58 | the first `k` outlines of a row are `k` cell outlines |
| Chunks.CountCellOutlinesAppend | src/chunks/Chunk.ts:44-85 | outlines are counted additively over concatenated command lists |
| Chunks.CountCellOutlinesNone | src/chunks/Chunk.ts:62-85 | commands that are not cell outlines add nothing to the count |
| Chunks.OutlineCount | src/chunks/Chunk.ts:44-85 | `rows * cols` cell outlines with the grid shown, none without it; the centre block's four commands come last either way |
| Chunks.EmissionOrder | src/chunks/Chunk.ts:49-85 | line style, then every cell outline, then the centre-block fill, then its width-4 stroke style and stroke |
| Chunks.CenterBlockInsideChunk | src/chunks/Chunk.ts:63-70 | the 4x4 block at `(floor(cols/2)-2, floor(rows/2)-2)` is inside the chunk exactly when cols and rows are at least 4 |
| Chunks.Chunk.constructor | src/chunks/Chunk.ts:16-34 | container at `(col*size*cols, row*size*rows)`; a fresh drawing surface holding what `drawGrid` draws |
| Chunks.Chunk.DrawGrid | src/chunks/Chunk.ts:36-86 | after the call the surface holds exactly the grid's commands, whatever it held before |
| Chunks.Chunk.StrokeCells | src/chunks/Chunk.ts:52-59 | the nested loops append every cell outline, row by row |
| Chunks.Chunk.DrawCenterBlock | src/chunks/Chunk.ts:62-85 | appends the centre-block fill style, fill, width-4 line style and stroke |
| Chunks.Chunk.DestroyContainer | src/chunks/ChunkManager.ts:66 | the container is destroyed once more |
| Chunks.RedrawTwice | src/chunks/Chunk.ts:41 | drawing twice leaves what drawing once leaves |
| Streaming.FloorDiv | src/chunks/ChunkManager.ts:18-19 | `Math.floor(v / s)` is the `q` with `q*s <= v < (q+1)*s` |
| Streaming.WorldToChunkCoords | src/chunks/ChunkManager.ts:17-21 | world x lies in `[col*S, (col+1)*S)` with `S = size*cols`; likewise y with rows |
| Streaming.NegativeCoordinates | src/chunks/ChunkManager.ts:17-21 | pixel -1 is in chunk -1 and pixel 0 in chunk 0 |
| Streaming.CameraCenterX | src/chunks/ChunkManager.ts:32 | the centre x is `floor(scrollX + width / 2)` |
| Streaming.CameraCenterY | src/chunks/ChunkManager.ts:33 | the centre y is `floor(scrollY + height / 2)` |
| Streaming.NeededIsChebyshevBall | src/chunks/ChunkManager.ts:49-52 | a chunk is needed exactly when both its coordinates are within `loadRadius` of the centre |
| Streaming.RowSetSize | src/chunks/ChunkManager.ts:50-52 | one row of the inner loop names `c1 - c0` distinct chunks |
| Streaming.RowSetEmpty | src/chunks/ChunkManager.ts:50 | the inner loop names no chunk when its range is empty |
| Streaming.SquareAddRow | src/chunks/ChunkManager.ts:49-52 | each pass of the outer loop adds one row of keys |
| Streaming.SquareSize | src/chunks/ChunkManager.ts:49-52 | the nested loops name `(c1-c0) * (r1-r0)` distinct chunks |
| Streaming.NeededSetSize | src/chunks/ChunkManager.ts:47-52 | `(2R+1)^2` needed chunks, 9 for R = 1; none for a negative radius |
| Streaming.ChunkManager.constructor | src/chunks/ChunkManager.ts:9-15 | no chunk loaded, no last camera chunk, `loadRadius` as given (default 1) |
| Streaming.ChunkManager.Update | src/chunks/ChunkManager.ts:28-74 | same centre chunk: nothing changes; otherwise the loaded keys become the needed set, kept chunks keep their object, new ones are fresh and drawn, removed ones are destroyed once, and the last chunk becomes the centre; before and after, every loaded chunk has its key's coordinate, its container at `(col*size*cols, row*size*rows)` and the grid drawn (`Valid`) |
| Streaming.ChunkManager.LoadMissing | src/chunks/ChunkManager.ts:47-60 | collects the needed set and adds a fresh, drawn chunk for every missing key, keeping every loaded one |
| Streaming.ChunkManager.LoadRow | src/chunks/ChunkManager.ts:50-59 | one row of the same, for columns `c0` up to `c1` |
| Streaming.ChunkManager.UnloadUnneeded | src/chunks/ChunkManager.ts:62-71 | afterwards the loaded keys are the needed ones, each removed chunk was destroyed exactly once, and no needed chunk was touched |
| Streaming.CentredOnOrigin | src/chunks/ChunkManager.ts:32-35 | with 1024-pixel chunks, a camera centre in `[0, 1024)^2` is in chunk (0, 0) |
| Streaming.OriginNeeded | src/chunks/ChunkManager.ts:47-52 | radius 1 around (0, 0) is nine chunks from (-1, -1) to (1, 1) |
| PlayScene.GridLinesInside | src/scenes/PlayScene.ts:26-39 | every segment endpoint lies in `[0, cols*size] x [0, rows*size]` |
| PlayScene.GridLines | src/scenes/PlayScene.ts:25-39 | `cols+1` vertical lines, the x-th at `x*size` from 0 to `rows*size`, then `rows+1` horizontal lines, the y-th at `y*size` from 0 to `cols*size` |
| PlayScene.AddProton | src/scenes/PlayScene.ts:41-58 | the proton is at the centre of cell (3, 4) with radius 24, and its "P" label 12 left and 16 up |
| PlayScene.AddCenterCircle | src/scenes/PlayScene.ts:64-95 | the centre circle, its width-4 border and its "CENTER" label 24 left and 18 up |
| PlayScene.Create | src/scenes/PlayScene.ts:14-96 | the grid lines with line style width 1 and colour 0x333355, then the proton and the centre circle with their labels |
| PlayScene.CenterCircleInscribed | src/scenes/PlayScene.ts:64-77 | the circle touches all four sides of the 3x3 block at `(floor(cols/2)-1, floor(rows/2)-1)` |
| PlayScene.CenterBlockInsideGrid | src/scenes/PlayScene.ts:65-66 | the 3x3 block is inside the grid exactly when cols and rows are at least 3 |
| PlayScene.ShippedPositions | src/scenes/PlayScene.ts:44-77 | with the shipped grid the centre circle is at (208, 176) with radius 48 and the proton at (112, 144) |
| Entities.OutlineColor | src/entities/Splitter.ts:46 | the outline is 0x118ab2 exactly when selected, 0x222222 exactly when not |
| Entities.Splitter.constructor | src/entities/Splitter.ts:17-23 | position, size and colour as given (colour 0xffd166 by default); not selected |
| Entities.Splitter.Select | src/entities/Splitter.ts:28-30 | selected afterwards; position, size and colour unchanged |
| Entities.Splitter.Deselect | src/entities/Splitter.ts:35-37 | not selected afterwards; position, size and colour unchanged |
| Entities.Splitter.Draw | src/entities/Splitter.ts:43-53 | appends the six drawing calls for the splitter's current state |
| Entities.DrawOutline | src/entities/Splitter.ts:43-53 | save first and restore last; the outline is the highlight exactly when selected; both circles sit at the centre with radius `size / 2` |
| Entities.SelectionChangesOnlyOutline | src/entities/Splitter.ts:46 | selecting changes only the outline colour of what is drawn |

## Left out

- Rendering: the Phaser drawing calls, `container.add`, game objects and text
  styles are not rendered. Drawing is a list of commands and the scene layout
  is a value. `console.log` in `update` is left out.
- The Phaser scene and camera objects: only the camera fields `update` reads
  (`scrollX`, `scrollY`, `width`, `height`) are modelled.
- The `centerBlockInfo` argument of `update`: it is passed to `new Chunk`,
  whose constructor takes three parameters and ignores it.
  No chunk leaves out any cell.
- Key strings: `loadedChunks` is keyed by `"col,row"` strings in the source
  and by coordinate pairs here; the two are in one-to-one correspondence.
- Streaming.ChunkManager.UnloadUnneeded: the source walks the map's keys in
  insertion order; the model picks them in any order. The outcome does not
  depend on the order.
- Streaming.CameraCenterX: the camera fields are JavaScript doubles, and the
  source floors the rounded double sum `scrollX + width / 2`. The model adds
  exact reals, so a sum that rounds up across an integer (scrollX = -1e-14,
  width = 2048 gives 1024.0 in doubles) is floored one lower here. The same
  holds for Streaming.CameraCenterY.
- Streaming.FloorDiv: the quotient `x / (size * cols)` is exact here, not
  rounded to a double before `Math.floor`; the two differ only for world
  coordinates too large or too fine for a double to hold exactly.
- Streaming.ChunkManager.constructor: `loadRadius` is an integer here; a
  fractional radius is not modelled.
- ColorUtils.HexToNumber: JavaScript numbers are doubles, so `parseInt`
  rounds values above 2^53 and turns "-0" into negative zero. The model
  returns the exact integer, and 0 for "-0".
- ColorUtils.HexToNumber: strings are sequences of code points here, not of
  UTF-16 code units. No white-space character or hexadecimal digit lies
  outside the basic plane, so this matters only for the first character
  `hexToNumber` drops when that character is a surrogate pair.
- Entities.Splitter.Draw: the `alpha` arguments are kept as the reals Phaser
  receives; no blending is modelled.
- The font styles of src/constants/config.ts and the text colours of
  src/constants/colors.ts are only used for labels and are not modelled.
- src/ui/MenuBar.ts, src/scenes/MenuBarScene.ts, src/scenes/UIScene.ts,
  src/scenes/SoundTestScene.ts, src/main.ts, src/gameobjects/FancyHub.ts,
  src/gameobjects/Splitter.ts and src/utils/getKeyCode.ts are not part of
  this model: they are UI layout, event wiring, audio, bootstrap,
  time-based animation and a lookup into Phaser's key table.
