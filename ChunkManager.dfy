/**
 * src/chunks/ChunkManager.ts: streams chunks in and out around the camera.
 * `Update` finds the chunk under the camera centre; when that chunk differs
 * from the one seen last, it makes the loaded chunks exactly the square of
 * chunks within `loadRadius` of it, creating the missing ones and destroying
 * the ones no longer needed.
 */
module Streaming {
  import opened Wrappers
  import opened Config
  import opened Chunks
  import GridMath

  /** A chunk's column and row; the source keys its map by the string "col,row", which this pair replaces. */
  datatype ChunkCoord = ChunkCoord(col: int, row: int)

  /** The camera fields `update` reads. */
  datatype Camera = Camera(scrollX: real, scrollY: real, width: real, height: real)

  /** `Math.floor(v / s)` for a positive integer `s`. */
  function FloorDiv(v: real, s: int): (q: int)
    requires s > 0
    ensures (q * s) as real <= v < ((q + 1) * s) as real
  {
    var sr := s as real;
    var q := (v / sr).Floor;
    assert v == (v / sr) * sr;
    RealMulMonotone(q as real, v / sr, sr);
    RealMulStrict(v / sr, (q + 1) as real, sr);
    q
  }

  lemma RealMulMonotone(a: real, b: real, s: real)
    requires a <= b && s > 0.0
    ensures a * s <= b * s
  {
    assert b * s - a * s == (b - a) * s;
  }

  lemma RealMulStrict(a: real, b: real, s: real)
    requires a < b && s > 0.0
    ensures a * s < b * s
  {
    assert b * s - a * s == (b - a) * s;
  }

  /** `worldToChunkCoords`: the chunk holding world pixel `(x, y)`, by floor division. */
  function WorldToChunkCoords(grid: GridConfig, cc: ChunkConfig, x: real, y: real): (c: ChunkCoord)
    requires grid.size > 0 && cc.Valid()
    ensures (c.col * (grid.size * cc.cols)) as real <= x < ((c.col + 1) * (grid.size * cc.cols)) as real
    ensures (c.row * (grid.size * cc.rows)) as real <= y < ((c.row + 1) * (grid.size * cc.rows)) as real
  {
    ChunkCoord(FloorDiv(x, grid.size * cc.cols), FloorDiv(y, grid.size * cc.rows))
  }

  /** The camera centre `update` uses: `(floor(scrollX + width / 2), floor(scrollY + height / 2))`. */
  function CameraCenterX(camera: Camera): (x: int)
    ensures x as real <= camera.scrollX + camera.width / 2.0 < x as real + 1.0
  {
    (camera.scrollX + camera.width / 2.0).Floor
  }

  function CameraCenterY(camera: Camera): (y: int)
    ensures y as real <= camera.scrollY + camera.height / 2.0 < y as real + 1.0
  {
    (camera.scrollY + camera.height / 2.0).Floor
  }

  /** The chunk under the camera centre. */
  function CenterChunk(grid: GridConfig, cc: ChunkConfig, camera: Camera): ChunkCoord
    requires grid.size > 0 && cc.Valid()
  {
    WorldToChunkCoords(grid, cc, CameraCenterX(camera) as real, CameraCenterY(camera) as real)
  }

  /** The chunks with `c0 <= col < c1` and `r0 <= row < r1`. */
  function Square(c0: int, c1: int, r0: int, r1: int): set<ChunkCoord> {
    set c, r | c0 <= c < c1 && r0 <= r < r1 :: ChunkCoord(c, r)
  }

  /** The chunks of row `r` with `c0 <= col < c1`. */
  function RowSet(c0: int, c1: int, r: int): set<ChunkCoord> {
    set c | c0 <= c < c1 :: ChunkCoord(c, r)
  }

  /** The chunks `update` wants loaded: the square of side `2 * radius + 1` around `center`. */
  function NeededSet(center: ChunkCoord, radius: int): set<ChunkCoord> {
    Square(center.col - radius, center.col + radius + 1, center.row - radius, center.row + radius + 1)
  }

  function Abs(n: int): nat {
    if n < 0 then -n else n
  }

  /** The needed set is the Chebyshev ball: a chunk is needed exactly when neither coordinate is more than `radius` away. */
  lemma NeededIsChebyshevBall(center: ChunkCoord, radius: int, k: ChunkCoord)
    ensures k in NeededSet(center, radius)
        <==> Abs(k.col - center.col) <= radius && Abs(k.row - center.row) <= radius
  {
    if Abs(k.col - center.col) <= radius && Abs(k.row - center.row) <= radius {
      assert k == ChunkCoord(k.col, k.row);
    }
  }

  lemma {:induction false} RowSetSize(c0: int, c1: int, r: int)
    requires c0 <= c1
    ensures |RowSet(c0, c1, r)| == c1 - c0
    decreases c1 - c0
  {
    if c0 < c1 {
      assert RowSet(c0, c1, r) == RowSet(c0, c1 - 1, r) + {ChunkCoord(c1 - 1, r)};
      RowSetSize(c0, c1 - 1, r);
    } else {
      assert RowSet(c0, c1, r) == {};
    }
  }

  lemma RowSetEmpty(c0: int, c1: int, r: int)
    requires c1 <= c0
    ensures RowSet(c0, c1, r) == {}
  {
    forall k | k in RowSet(c0, c1, r) ensures false {
    }
  }

  lemma SquareAddRow(c0: int, c1: int, r0: int, r1: int)
    requires r0 <= r1
    ensures Square(c0, c1, r0, r1 + 1) == Square(c0, c1, r0, r1) + RowSet(c0, c1, r1)
  {
    forall k | k in Square(c0, c1, r0, r1 + 1)
      ensures k in Square(c0, c1, r0, r1) + RowSet(c0, c1, r1)
    {
      if k.row < r1 {
        assert k in Square(c0, c1, r0, r1);
      } else {
        assert k in RowSet(c0, c1, r1);
      }
    }
  }

  lemma {:induction false} SquareSize(c0: int, c1: int, r0: int, r1: int)
    requires c0 <= c1 && r0 <= r1
    ensures |Square(c0, c1, r0, r1)| == (c1 - c0) * (r1 - r0)
    decreases r1 - r0
  {
    if r0 < r1 {
      SquareAddRow(c0, c1, r0, r1 - 1);
      assert Square(c0, c1, r0, r1 - 1) !! RowSet(c0, c1, r1 - 1);
      SquareSize(c0, c1, r0, r1 - 1);
      RowSetSize(c0, c1, r1 - 1);
      assert (c1 - c0) * (r1 - r0) == (c1 - c0) * (r1 - 1 - r0) + (c1 - c0);
    } else {
      assert Square(c0, c1, r0, r1) == {};
    }
  }

  /** The needed set holds `(2R + 1)^2` chunks, 9 for the default radius 1; none for a negative radius. */
  lemma NeededSetSize(center: ChunkCoord, radius: int)
    ensures radius >= 0 ==> |NeededSet(center, radius)| == (2 * radius + 1) * (2 * radius + 1)
    ensures radius < 0 ==> NeededSet(center, radius) == {}
  {
    if radius >= 0 {
      SquareSize(center.col - radius, center.col + radius + 1, center.row - radius, center.row + radius + 1);
    } else {
      forall k | k in NeededSet(center, radius) ensures false {
      }
    }
  }

  /** Floor, not truncation: pixel -1 is in chunk -1, pixel 0 in chunk 0. */
  lemma NegativeCoordinates(grid: GridConfig, cc: ChunkConfig)
    requires grid.size > 0 && cc.Valid()
    ensures WorldToChunkCoords(grid, cc, -1.0, -1.0) == ChunkCoord(-1, -1)
    ensures WorldToChunkCoords(grid, cc, 0.0, 0.0) == ChunkCoord(0, 0)
  {
    var c := WorldToChunkCoords(grid, cc, -1.0, -1.0);
    FloorDivMinusOne(c.col, grid.size * cc.cols);
    FloorDivMinusOne(c.row, grid.size * cc.rows);
    var z := WorldToChunkCoords(grid, cc, 0.0, 0.0);
    FloorDivZero(z.col, grid.size * cc.cols);
    FloorDivZero(z.row, grid.size * cc.rows);
  }

  lemma FloorDivMinusOne(q: int, s: int)
    requires s > 0 && q * s <= -1 < (q + 1) * s
    ensures q == -1
  {
    if q >= 0 {
      GridMath.MulMonotone(0, q, s);
    } else if q <= -2 {
      GridMath.MulMonotone(q + 1, -1, s);
    }
  }

  lemma FloorDivZero(q: int, s: int)
    requires s > 0 && q * s <= 0 < (q + 1) * s
    ensures q == 0
  {
    if q >= 1 {
      GridMath.MulMonotone(1, q, s);
    } else if q <= -1 {
      GridMath.MulMonotone(q + 1, 0, s);
    }
  }

  class ChunkManager {
    const grid: GridConfig
    const chunkConfig: ChunkConfig
    const loadRadius: int
    var loadedChunks: map<ChunkCoord, Chunk>
    var lastCameraChunkPos: Option<ChunkCoord>

    /** Every loaded chunk is `Placed` under its key, holds what `drawGrid` draws and has not been destroyed. */
    ghost predicate Valid()
      reads this, loadedChunks.Values, set k | k in loadedChunks :: loadedChunks[k].graphics
    {
      && Indexed()
      && forall k | k in loadedChunks :: Drawn(loadedChunks[k])
    }

    /** The part of `Valid` that does not look at what the chunks have drawn. */
    ghost predicate Indexed()
      reads this, loadedChunks.Values
    {
      && grid.Valid() && chunkConfig.Valid()
      && forall k | k in loadedChunks :: Placed(k, loadedChunks[k]) && loadedChunks[k].destroyCount == 0
    }

    /**
     * The chunk sits under its own coordinate, was built from this manager's
     * configuration and has its container at its own pixel offset.
     */
    ghost predicate Placed(k: ChunkCoord, chunk: Chunk) {
      && chunk.col == k.col && chunk.row == k.row
      && chunk.grid == grid && chunk.chunkConfig == chunkConfig
      && chunk.containerX == k.col * grid.size * chunkConfig.cols
      && chunk.containerY == k.row * grid.size * chunkConfig.rows
    }

    constructor (grid: GridConfig, chunkConfig: ChunkConfig, loadRadius: int := 1)
      requires grid.Valid() && chunkConfig.Valid()
      ensures Valid()
      ensures this.grid == grid && this.chunkConfig == chunkConfig && this.loadRadius == loadRadius
      ensures loadedChunks == map[] && lastCameraChunkPos == None
    {
      this.grid := grid;
      this.chunkConfig := chunkConfig;
      this.loadRadius := loadRadius;
      loadedChunks := map[];
      lastCameraChunkPos := None;
    }

    /**
     * `update`: nothing happens while the camera centre stays in the chunk seen
     * last; otherwise the loaded chunks become exactly the needed set, chunks
     * already loaded are kept, missing ones are created and every chunk no
     * longer needed is destroyed once and dropped.
     */
    method Update(camera: Camera)
      requires Valid()
      modifies this, loadedChunks.Values
      ensures Valid()
      ensures var center := CenterChunk(grid, chunkConfig, camera);
        old(lastCameraChunkPos) == Some(center) ==>
          && loadedChunks == old(loadedChunks) && lastCameraChunkPos == old(lastCameraChunkPos)
      ensures var center := CenterChunk(grid, chunkConfig, camera);
        old(lastCameraChunkPos) != Some(center) ==>
          && lastCameraChunkPos == Some(center)
          && loadedChunks.Keys == NeededSet(center, loadRadius)
          && (forall k :: k in old(loadedChunks) && k in loadedChunks ==> loadedChunks[k] == old(loadedChunks)[k])
          && (forall k :: k in loadedChunks && k !in old(loadedChunks) ==>
                fresh(loadedChunks[k]) && Drawn(loadedChunks[k]))
          && (forall k :: k in old(loadedChunks) && k !in loadedChunks ==> old(loadedChunks)[k].destroyCount == 1)
    {
      var camCenterX := (camera.scrollX + camera.width / 2.0).Floor;
      var camCenterY := (camera.scrollY + camera.height / 2.0).Floor;
      var center := WorldToChunkCoords(grid, chunkConfig, camCenterX as real, camCenterY as real);
      if lastCameraChunkPos == Some(center) {
        return;
      }
      lastCameraChunkPos := Some(center);
      var needed := LoadMissing(center);
      UnloadUnneeded(needed);
    }

    /** A loaded chunk drawn from this manager's configuration. */
    ghost predicate Drawn(chunk: Chunk)
      reads chunk.graphics
    {
      chunkConfig.Valid() && chunk.graphics.commands == GridCommands(grid, chunkConfig)
    }

    /** The nested loops of `update`: collect the needed keys and create each missing chunk. */
    method LoadMissing(center: ChunkCoord) returns (needed: set<ChunkCoord>)
      requires Indexed()
      modifies this`loadedChunks
      ensures Indexed()
      ensures needed == NeededSet(center, loadRadius)
      ensures loadedChunks.Keys == old(loadedChunks).Keys + needed
      ensures forall k :: k in old(loadedChunks) ==> loadedChunks[k] == old(loadedChunks)[k]
      ensures forall k :: k in loadedChunks && k !in old(loadedChunks) ==>
                fresh(loadedChunks[k]) && Drawn(loadedChunks[k])
    {
      var c0, c1 := center.col - loadRadius, center.col + loadRadius + 1;
      var r0, r1 := center.row - loadRadius, center.row + loadRadius + 1;
      needed := {};
      var r := r0;
      while r < r1
        invariant r0 <= r && (r0 <= r1 ==> r <= r1)
        invariant needed == Square(c0, c1, r0, r)
        invariant Indexed()
        invariant loadedChunks.Keys == old(loadedChunks).Keys + needed
        invariant forall k :: k in old(loadedChunks) ==> loadedChunks[k] == old(loadedChunks)[k]
        invariant forall k :: k in loadedChunks && k !in old(loadedChunks) ==>
                    fresh(loadedChunks[k]) && Drawn(loadedChunks[k])
      {
        var row := LoadRow(c0, c1, r);
        SquareAddRow(c0, c1, r0, r);
        needed := needed + row;
        r := r + 1;
      }
      if r0 > r1 {
        assert Square(c0, c1, r0, r) == {} == Square(c0, c1, r0, r1);
      }
    }

    /** The inner loop of `update`: the keys of row `r` from column `c0` up to `c1`, each created if missing. */
    method LoadRow(c0: int, c1: int, r: int) returns (row: set<ChunkCoord>)
      requires Indexed()
      modifies this`loadedChunks
      ensures Indexed()
      ensures row == RowSet(c0, c1, r)
      ensures loadedChunks.Keys == old(loadedChunks).Keys + row
      ensures forall k :: k in old(loadedChunks) ==> loadedChunks[k] == old(loadedChunks)[k]
      ensures forall k :: k in loadedChunks && k !in old(loadedChunks) ==>
                fresh(loadedChunks[k]) && Drawn(loadedChunks[k])
    {
      row := {};
      var c := c0;
      while c < c1
        invariant c == c0 || c0 < c <= c1
        invariant row == RowSet(c0, c, r)
        invariant Indexed()
        invariant loadedChunks.Keys == old(loadedChunks).Keys + row
        invariant forall k :: k in old(loadedChunks) ==> loadedChunks[k] == old(loadedChunks)[k]
        invariant forall k :: k in loadedChunks && k !in old(loadedChunks) ==>
                    fresh(loadedChunks[k]) && Drawn(loadedChunks[k])
      {
        var key := ChunkCoord(c, r);
        assert RowSet(c0, c + 1, r) == RowSet(c0, c, r) + {key};
        row := row + {key};
        if key !in loadedChunks {
          var chunk := new Chunk(c, r, grid, chunkConfig);
          loadedChunks := loadedChunks[key := chunk];
        }
        c := c + 1;
      }
      if c0 > c1 {
        RowSetEmpty(c0, c, r);
        RowSetEmpty(c0, c1, r);
      }
    }

    /** The second loop of `update`: destroy and delete every loaded chunk that is not needed. */
    method UnloadUnneeded(needed: set<ChunkCoord>)
      requires Indexed() && needed <= loadedChunks.Keys
      modifies this`loadedChunks, loadedChunks.Values
      ensures Indexed()
      ensures loadedChunks.Keys == needed
      ensures forall k :: k in loadedChunks ==> loadedChunks[k] == old(loadedChunks)[k]
      ensures forall k :: k in old(loadedChunks) && k !in needed ==> old(loadedChunks)[k].destroyCount == 1
    {
      ghost var before := loadedChunks;
      var keys := loadedChunks.Keys;
      while keys != {}
        invariant keys <= before.Keys
        invariant forall k :: k in loadedChunks <==> k in before && (k in keys || k in needed)
        invariant forall k :: k in loadedChunks ==> loadedChunks[k] == before[k]
        invariant forall k :: k in before ==> before[k].col == k.col && before[k].row == k.row
        invariant forall k :: k in before ==>
                    before[k].destroyCount == if k in keys || k in needed then 0 else 1
        decreases keys
      {
        var key :| key in keys;
        if key !in needed {
          var chunk := loadedChunks[key];
          assert chunk in before.Values;
          assert forall k | k in before && k != key :: before[k] != chunk;
          chunk.DestroyContainer();
          loadedChunks := loadedChunks - {key};
        }
        keys := keys - {key};
      }
    }
  }

  /** A camera whose centre falls on world pixel (0, 0) or just beside it is centred on chunk (0, 0). */
  lemma CentredOnOrigin(grid: GridConfig, cc: ChunkConfig, camera: Camera)
    requires grid.size == 64 && cc == ChunkConfig(16, 16)
    requires 0.0 <= camera.scrollX + camera.width / 2.0 < 1024.0
    requires 0.0 <= camera.scrollY + camera.height / 2.0 < 1024.0
    ensures CenterChunk(grid, cc, camera) == ChunkCoord(0, 0)
  {
    var c := CenterChunk(grid, cc, camera);
    var x, y := CameraCenterX(camera), CameraCenterY(camera);
    assert 0 <= x < 1024 && 0 <= y < 1024;
    assert c.col * 1024 <= x < (c.col + 1) * 1024;
    assert c.row * 1024 <= y < (c.row + 1) * 1024;
  }

  /** Radius 1 around chunk (0, 0): nine chunks, corners (-1, -1) and (1, 1) included. */
  lemma OriginNeeded()
    ensures |NeededSet(ChunkCoord(0, 0), 1)| == 9
    ensures ChunkCoord(-1, -1) in NeededSet(ChunkCoord(0, 0), 1)
    ensures ChunkCoord(1, 1) in NeededSet(ChunkCoord(0, 0), 1)
  {
    NeededSetSize(ChunkCoord(0, 0), 1);
    NeededIsChebyshevBall(ChunkCoord(0, 0), 1, ChunkCoord(-1, -1));
    NeededIsChebyshevBall(ChunkCoord(0, 0), 1, ChunkCoord(1, 1));
  }

  /**
   * The scenario of 16x16-cell chunks of 64-pixel cells with radius 1 and the
   * camera centred on the origin: the first update loads the nine chunks from
   * (-1, -1) to (1, 1), each placed at its own pixel offset and drawn; a
   * second update inside chunk (0, 0) changes nothing.
   */
  method OriginScenario()
  {
    var grid := GridConfig(64, 12, 10, 8, true);
    var cc := ChunkConfig(16, 16);
    var manager := new ChunkManager(grid, cc);
    var camera := Camera(-400.0, -300.0, 800.0, 600.0);
    CentredOnOrigin(grid, cc, camera);
    manager.Update(camera);
    OriginNeeded();
    assert |manager.loadedChunks.Keys| == 9;
    assert ChunkCoord(-1, -1) in manager.loadedChunks && ChunkCoord(1, 1) in manager.loadedChunks;
    assert manager.loadedChunks[ChunkCoord(1, 1)].containerX == 1024;
    assert manager.loadedChunks[ChunkCoord(-1, -1)].containerY == -1024;
    var before := manager.loadedChunks;
    var moved := Camera(-380.0, -290.0, 800.0, 600.0);
    CentredOnOrigin(grid, cc, moved);
    manager.Update(moved);
    assert manager.loadedChunks == before;
    assert manager.Drawn(manager.loadedChunks[ChunkCoord(0, 0)]);
  }
}
