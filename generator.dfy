/** The maze chunk generator: builds the stair list once from the level mazes, then
    rasterizes any number of chunks from them. */
module Generator {
  import opened MazeGrid
  import opened StairSearch
  import opened Chunks
  import opened Raster

  class MazeChunkGenerator {
    const width: int
    const height: int
    const startHeight: int
    const mazes: seq<Maze>
    var stairs: seq<Stair>
    var lastStairX: int
    var lastStairY: int

    ghost predicate Valid()
      reads this
    {
      && WellFormed(View())
      && 0 <= lastStairX && 0 <= lastStairY
    }

    /** The generator's state as a value. */
    function View(): Dungeon
      reads this
    {
      Dungeon(width, height, startHeight, mazes, stairs)
    }

    /** Takes the per-level mazes, each `height` rows of `width` cells, in place of
        generating them, and records the stairs between adjacent levels. */
    constructor (width: int, height: int, levels: seq<Maze>, startHeight: int)
      requires 0 <= width && 0 <= height
      requires forall i :: 0 <= i < |levels| ==> Grid(levels[i], width, height)
      ensures Valid()
      ensures this.width == width && this.height == height && this.startHeight == startHeight
      ensures mazes == levels
      ensures stairs == BuildStairs(levels, width, height, 0, Cell(0, 0))
      ensures |stairs| <= if |levels| > 0 then |levels| - 1 else 0
      ensures StairsSorted(stairs) && OnWalls(mazes, stairs)
    {
      this.width := width;
      this.height := height;
      this.startHeight := startHeight;
      var built: seq<Maze> := [];
      var i := 0;
      while i < |levels|
        invariant 0 <= i <= |levels| && built == levels[..i]
      {
        built := built + [levels[i]];
        i := i + 1;
      }
      assert built == levels;
      mazes := built;
      stairs := [];
      lastStairX := 0;
      lastStairY := 0;
      new;
      i := 0;
      while i < |mazes| - 1
        invariant 0 <= i && (i <= |mazes| - 1 || i == 0)
        invariant Valid()
        invariant stairs + BuildStairs(mazes, width, height, i, Cell(lastStairX, lastStairY))
                  == BuildStairs(mazes, width, height, 0, Cell(0, 0))
      {
        BuildStairsStep(mazes, width, height, i, Cell(lastStairX, lastStairY), stairs);
        InsertStairs(i, mazes[i], mazes[i + 1]);
        i := i + 1;
      }
      BuildStairsBounds(mazes, width, height, 0, Cell(0, 0));
      StairsOrdered(mazes, width, height, 0, Cell(0, 0));
      StairsOnWalls(mazes, width, height, 0, Cell(0, 0));
    }

    /** Searches for a stair between `level` and `level + 1` from the cursor
        (lastStairX, lastStairY), records it and moves the cursor. */
    method InsertStairs(level: int, level1: Maze, level2: Maze)
      requires Valid()
      requires 0 <= level < |mazes| - 1 && level1 == mazes[level] && level2 == mazes[level + 1]
      modifies this
      ensures Valid()
      ensures var found := FindStair(level1, level2, width, height, Cell(old(lastStairX), old(lastStairY)));
              && stairs == old(stairs) + Recorded(level, found)
              && Cell(lastStairX, lastStairY) == NextCursor(height, Cell(old(lastStairX), old(lastStairY)), found)
    {
      ghost var cursor := Cell(lastStairX, lastStairY);
      ghost var goal := Scan(level1, level2, width, height, cursor.x, cursor.y, 0);
      assert Grid(level1, width, height) && Grid(level2, width, height);
      var free := 0;
      var stairX := -1;
      var stairY := -1;
      var y := lastStairY;
      while y < height
        modifies this`lastStairX
        invariant cursor.y <= y && (y <= height || y == cursor.y)
        invariant 0 <= lastStairX == (if y == cursor.y then cursor.x else 0)
        invariant stairX == -1 && stairY == -1 && 0 <= free < 5
        invariant Scan(level1, level2, width, height, lastStairX, y, free) == goal
      {
        var x := lastStairX;
        while x < width
          modifies {}
          invariant lastStairX <= x
          invariant stairX == -1 && stairY == -1 && 0 <= free < 5
          invariant Scan(level1, level2, width, height, x, y, free) == goal
        {
          if level1[y][x] || level2[y][x] {
            free := 0;
          } else {
            free := free + 1;
          }
          if free == 5 {
            assert goal == Some(Cell(x, y));
            stairX := x;
            stairY := y;
            break;
          }
          x := x + 1;
        }
        if stairX != -1 && stairY != -1 {
          break;
        }
        lastStairX := 0;
        y := y + 1;
      }
      ScanIsFindStair(level1, level2, width, height, cursor);
      if stairX != -1 && stairY != -1 {
        stairs := stairs + [Stair(stairX - 4, level, stairY)];
        lastStairX := stairX;
        lastStairY := stairY;
      }
    }

    /** Rasterizes the chunk: when its origin lies inside the maze footprint, writes
        every level's band and then stamps every stair over the bands. */
    method GenerateChunk(chunk: Chunk)
      requires Valid()
      modifies chunk
      ensures forall p :: Lookup(chunk.blocks, p) ==
                RasterBlock(View(), chunk.worldX, chunk.worldZ, old(chunk.blocks), p)
      ensures !Active(View(), chunk.worldX, chunk.worldZ) ==> chunk.blocks == old(chunk.blocks)
    {
      var groundHeight := startHeight;
      var offsetX := chunk.worldX;
      var offsetZ := chunk.worldZ;
      var y := groundHeight;
      if offsetX >= 0 && offsetZ >= 0 && offsetX < width && offsetZ < height {
        ghost var d := View();
        ghost var before := chunk.blocks;
        var l := 0;
        while l < |mazes|
          invariant 0 <= l <= |mazes| && y == startHeight + 3 * l
          invariant forall p :: Lookup(chunk.blocks, p) == BandsBelow(d, offsetX, offsetZ, before, l, p)
        {
          ghost var m := chunk.blocks;
          FillBand(chunk, l, offsetX, offsetZ, y);
          BandsStep(d, offsetX, offsetZ, before, l, m, chunk.blocks);
          y := y + 3;
          l := l + 1;
        }
        var i := 0;
        while i < |stairs|
          invariant 0 <= i <= |stairs|
          invariant forall p :: Lookup(chunk.blocks, p) ==
                      Overlay(Stamped(stairs[..i], startHeight, offsetX, offsetZ, p), AfterBands(d, offsetX, offsetZ, before, p))
        {
          ghost var m := chunk.blocks;
          StampStair(chunk, stairs[i], offsetX, offsetZ, groundHeight);
          StairsStep(d, offsetX, offsetZ, before, i, m, chunk.blocks);
          i := i + 1;
        }
        assert stairs[..i] == stairs;
      }
    }

    /** Writes the band of level `l`, whose floor is at height `y`: for every column of
        the chunk, the floor and the two voxels above it. */
    method FillBand(chunk: Chunk, l: int, offsetX: int, offsetZ: int, y: int)
      requires 0 <= l < |mazes| && Grid(mazes[l], width, height) && 0 <= offsetX && 0 <= offsetZ
      requires y == startHeight + 3 * l
      modifies chunk
      ensures forall p :: Lookup(chunk.blocks, p) ==
                if InLevel(startHeight, l, p)
                then Some(BandBlock(mazes[l], width, height, offsetX + p.x, offsetZ + p.z, p.y - y))
                else Lookup(old(chunk.blocks), p)
    {
      var maze := mazes[l];
      var z := 0;
      while z < SIZE_Z
        invariant 0 <= z <= SIZE_Z
        invariant BandPartial(chunk.blocks, old(chunk.blocks), maze, width, height, offsetX, offsetZ, startHeight, l, 0, z)
      {
        var x := 0;
        while x < SIZE_X
          invariant 0 <= x <= SIZE_X
          invariant BandPartial(chunk.blocks, old(chunk.blocks), maze, width, height, offsetX, offsetZ, startHeight, l, x, z)
        {
          ghost var m := chunk.blocks;
          var mazeX := offsetX + x;
          var mazeZ := offsetZ + z;
          chunk.SetBlock(x, y, z, Ground);
          if mazeX < width && mazeZ < height && maze[mazeZ][mazeX] {
            chunk.SetBlock(x, y + 1, z, Ground);
            chunk.SetBlock(x, y + 2, z, Ground);
          } else {
            if mazeX % 3 == 1 && mazeZ % 3 == 1 {
              chunk.SetBlock(x, y + 1, z, Torch);
            } else {
              chunk.SetBlock(x, y + 1, z, Air);
            }
            chunk.SetBlock(x, y + 2, z, Air);
          }
          BandColumnStep(maze, width, height, offsetX, offsetZ, startHeight, l, x, z, old(chunk.blocks), m, chunk.blocks);
          x := x + 1;
        }
        BandRowStep(chunk.blocks, old(chunk.blocks), maze, width, height, offsetX, offsetZ, startHeight, l, z);
        z := z + 1;
      }
    }
  }

  /** Stamps stair `s` into the chunk whose origin is (offsetX, offsetZ): four columns
      along x, each written only where it falls inside the chunk. */
  method StampStair(chunk: Chunk, s: Stair, offsetX: int, offsetZ: int, groundHeight: int)
    modifies chunk
    ensures forall p :: Lookup(chunk.blocks, p) ==
              if Covers(s, groundHeight, offsetX, offsetZ, p) then Some(StairBlockAt(s, groundHeight, offsetX, p))
              else Lookup(old(chunk.blocks), p)
  {
    var chunkPosX := s.x - offsetX;
    var chunkPosY := groundHeight + s.level * 3;
    var chunkPosZ := s.z - offsetZ;
    StampColumn(chunk, chunkPosX, chunkPosY, chunkPosZ, Air, Air, Air);
    chunkPosX := chunkPosX + 1;
    StampColumn(chunk, chunkPosX, chunkPosY, chunkPosZ, Ground, Air, Air);
    chunkPosX := chunkPosX + 1;
    StampColumn(chunk, chunkPosX, chunkPosY, chunkPosZ, Air, Ground, Air);
    chunkPosX := chunkPosX + 1;
    StampColumn(chunk, chunkPosX, chunkPosY, chunkPosZ, Air, Air, Ground);
  }

  /** Writes `b1`, `b2`, `b3` at the three heights above `cy` in column (cx, cz), or
      nothing when the column lies outside the chunk. */
  method StampColumn(chunk: Chunk, cx: int, cy: int, cz: int, b1: Block, b2: Block, b3: Block)
    modifies chunk
    ensures forall p :: Lookup(chunk.blocks, p) ==
              if InChunk(cx, cz) && p.x == cx && p.z == cz && cy < p.y <= cy + 3
              then Some(if p.y == cy + 1 then b1 else if p.y == cy + 2 then b2 else b3)
              else Lookup(old(chunk.blocks), p)
  {
    if cx >= 0 && cz >= 0 && cx < SIZE_X && cz < SIZE_Z {
      chunk.SetBlock(cx, cy + 1, cz, b1);
      chunk.SetBlock(cx, cy + 2, cz, b2);
      chunk.SetBlock(cx, cy + 3, cz, b3);
    }
  }
}
