# Maze chunk generator, modelled in Dafny

This project models `MazeChunkGenerator`, the world generator of the Pathfinding module. It builds a
multi-level maze dungeon and writes it into 16 × 16 chunks of a voxel world. The model follows the
generator's two phases.

- **Construction.** The generator takes one maze grid per level: `height` rows of `width` cells,
  where `true` marks a passage. For every pair of adjacent levels it searches for a stair position.
  The search scans both grids row by row from a persistent cursor (`lastStairX`, `lastStairY`). It
  counts cells that are walls (`false`) in both levels and stops when five such cells have been seen
  in a row. The counter is not reset at the end of a grid row. The stair `(x - 4, level, y)` is
  recorded and the cursor moves to the found cell. When a search fails, the cursor's column goes
  back to 0 and its row stays.
- **Rasterization.** `GenerateChunk` runs only for a chunk whose origin lies inside the maze
  footprint. For each level it writes a band of three voxels per column, starting at height
  `startHeight + 3 * level`:
  - the floor is ground;
  - a passage cell is solid ground in both voxels above the floor;
  - a wall cell, or a cell outside the grid, is air in both, except for a torch one voxel above the
    floor on a lattice of every third cell.
  
  It then stamps each recorded stair as four columns of steps, each column written only where it
  falls inside the chunk.

Modules, one per file:

- `MazeGrid` (`maze_grid.dfy`): grids, cells, stairs, and the row-major scan order from a cursor.
- `StairSearch` (`stair_search.dfy`): the stair search as a specification.
  - `FindStair` is the first run of five eligible cells in the scan order.
  - `Scan` is the same search as a cell-by-cell state machine, and the lemmas prove the two equal.
  - `BuildStairs` is the construction loop as a fold over level pairs.
- `Chunks` (`chunk.dfy`): the chunk storage the generator writes to.
- `Raster` (`raster.dfy`): `RasterBlock`, the block every voxel holds after rasterization, and its
  properties.
- `Generator` (`generator.dfy`): the `MazeChunkGenerator` class.
  - Its fields are those of the source.
  - Its constructor, `InsertStairs` and `GenerateChunk` are loops proved against the specification
    functions above.
- `CursorExample` (`cursor_example.dfy`): a concrete construction. It shows that after a failed
  search, a later stair on the same row can be anchored further left than an earlier one.

Two behaviours of the code a reader might not expect, both modelled as the code has them:

- **Stair x on one row.** It is tempting to read the cursor as a forward-only sweep: on one row,
  anchors would never move left. The code does not guarantee this.
  - A failed search resets `lastStairX` to 0 and keeps `lastStairY`.
  - A later search therefore rescans the cursor's row from column 0.
  - `CursorExample.RowCanMoveLeft` exhibits this.
  - What does hold for stairs of two consecutive level pairs on the same row is stated by
    `StairSearch.ConsecutiveStairsApart`: the second anchor is at least four columns to the right.
- **Stair columns.** Column 0 of a stair is air at all three heights above the floor. Column
  `k` = 1, 2, 3 is ground exactly `k` voxels above the floor (`Raster.StepBlock`).

## Model

All source paths below are in `src/main/java/org/terasology/pathfinding/MazeChunkGenerator.java`.

| member | source | states |
|---|---|---|
| MazeGrid.Eligible | src/main/java/org/terasology/pathfinding/MazeChunkGenerator.java:77 | a cell can hold part of a stair run exactly when it is `false` in both levels; any `true` cell resets the counter |
| MazeGrid.ScanOrder | src/main/java/org/terasology/pathfinding/MazeChunkGenerator.java:75-76 | the cells the nested loops visit: the rest of the cursor's row from `lastStairX`, then every later row from column 0, up to row `height - 1` |
| MazeGrid.ScanOrderBounds | src/main/java/org/terasology/pathfinding/MazeChunkGenerator.java:75-76 | the scan from a cursor visits only grid cells on the cursor's row or below. On the cursor's row it steps one column at a time from the cursor |
| MazeGrid.ScanOrderSorted | src/main/java/org/terasology/pathfinding/MazeChunkGenerator.java:75-76 | the nested loops visit cells in strictly increasing row-major order |
| MazeGrid.ScanOrderComplete | src/main/java/org/terasology/pathfinding/MazeChunkGenerator.java:75-76 | every grid cell from the cursor onward, in row-major order, is visited |
| MazeGrid.ScanBack | src/main/java/org/terasology/pathfinding/MazeChunkGenerator.java:75-76 | the `d` cells scanned before a cell in column at least `d` are its left neighbours on the same row |
| MazeGrid.ScanStep | src/main/java/org/terasology/pathfinding/MazeChunkGenerator.java:76 | inside a row, the inner loop visits the current cell and moves on to its right neighbour |
| MazeGrid.ScanWrap | src/main/java/org/terasology/pathfinding/MazeChunkGenerator.java:75-91 | past the end of a row, the scan continues at column 0 of the next row |
| StairSearch.FindStair | src/main/java/org/terasology/pathfinding/MazeChunkGenerator.java:72-94 | the cell where the search stops: the last cell of the first run of five eligible cells in the scan order from the cursor, or none when the scan holds no such run |
| StairSearch.Scan | src/main/java/org/terasology/pathfinding/MazeChunkGenerator.java:75-91 | the loops as a state machine over (x, y, free): visit the cell, reset `free` on a passage in either level or add one, stop at five, and move to column 0 of the next row at a row end; none past the last row |
| StairSearch.NextCursor | src/main/java/org/terasology/pathfinding/MazeChunkGenerator.java:88-96 | the cursor after a search: the found cell; after a failed search that entered the row loop, column 0 of the same row; otherwise unchanged |
| StairSearch.Recorded | src/main/java/org/terasology/pathfinding/MazeChunkGenerator.java:93-94 | the entry appended for level pair `level`: `(x - 4, level, y)` for a found cell, nothing for a failed search |
| StairSearch.BuildStairs | src/main/java/org/terasology/pathfinding/MazeChunkGenerator.java:66-68 | the stairs the construction loop records for level pairs `i`, `i + 1`, …: each pair's entry, with the cursor carried from one search to the next |
| StairSearch.Trail | src/main/java/org/terasology/pathfinding/MazeChunkGenerator.java:77-81 | the run counter never exceeds the number of cells scanned |
| StairSearch.TrailIsRun | src/main/java/org/terasology/pathfinding/MazeChunkGenerator.java:77-81 | the counter is at least `n` exactly when the last `n` scanned cells are walls in both levels. This holds across row boundaries |
| StairSearch.RunEndsAtCounter | src/main/java/org/terasology/pathfinding/MazeChunkGenerator.java:77-83 | the counter reaches five exactly where a run of five eligible cells ends |
| StairSearch.TrailStep | src/main/java/org/terasology/pathfinding/MazeChunkGenerator.java:77-81 | a cell that is a passage in either level resets the counter; any other cell bumps it by one |
| StairSearch.FirstRun | src/main/java/org/terasology/pathfinding/MazeChunkGenerator.java:82-86 | the index it returns lies between its start and the end of the scan |
| StairSearch.FirstRunSpec | src/main/java/org/terasology/pathfinding/MazeChunkGenerator.java:82-86 | a returned index ends a run, and no run ends before it (or anywhere, when none is returned) |
| StairSearch.FindStairFound | src/main/java/org/terasology/pathfinding/MazeChunkGenerator.java:72-94 | a found cell lies in the grid on the cursor's row or below and is a wall in both levels. On the cursor's row it lies at least four columns past the cursor |
| StairSearch.FindStairIsFirstRun | src/main/java/org/terasology/pathfinding/MazeChunkGenerator.java:72-94 | the search reports the last cell of the first run of five eligible scan cells, and reports nothing exactly when the scan holds no such run |
| StairSearch.FindStairNone | src/main/java/org/terasology/pathfinding/MazeChunkGenerator.java:75-92 | a scan without a run of five eligible cells records no stair |
| StairSearch.FindStairAt | src/main/java/org/terasology/pathfinding/MazeChunkGenerator.java:82-86 | the first run in the scan is the one the search reports |
| StairSearch.StairRunEligible | src/main/java/org/terasology/pathfinding/MazeChunkGenerator.java:72-94 | every in-grid cell from the found column minus 4 up to the found column, on the found row, is a wall in both levels |
| StairSearch.RunCellInRow | src/main/java/org/terasology/pathfinding/MazeChunkGenerator.java:75-83 | a cell at most four columns left of a run's last cell, on its row and inside the grid, belongs to the run |
| StairSearch.ScanFrom | src/main/java/org/terasology/pathfinding/MazeChunkGenerator.java:75-91 | midway through the scan, the remaining loop iterations end where the first-run search does |
| StairSearch.ScanVisit | src/main/java/org/terasology/pathfinding/MazeChunkGenerator.java:76-86 | one inner-loop iteration updates the counter. Reaching five stops at the first run; otherwise the scanned cells still hold no run |
| StairSearch.ScanIsFindStair | src/main/java/org/terasology/pathfinding/MazeChunkGenerator.java:72-91 | the loops, started at the cursor with a zero counter, find exactly the first-run cell |
| StairSearch.BuildStairsStep | src/main/java/org/terasology/pathfinding/MazeChunkGenerator.java:66-68 | one iteration of the construction loop appends that pair's entry and continues from the moved cursor |
| StairSearch.BuildStairsBounds | src/main/java/org/terasology/pathfinding/MazeChunkGenerator.java:66-68 | the fold yields no more stairs than there are remaining level pairs. Every stair joins a pair from the current one on, lies on the cursor's row or below, and has anchor column in [-4, width - 4) |
| StairSearch.LeadingStair | src/main/java/org/terasology/pathfinding/MazeChunkGenerator.java:66-68 | a stair list whose first entry is for the current pair starts with that pair's search result |
| StairSearch.ConsecutiveStairsApart | src/main/java/org/terasology/pathfinding/MazeChunkGenerator.java:75-96 | stairs of two consecutive level pairs on the same row are at least four columns apart, in scan order |
| StairSearch.StairsOrdered | src/main/java/org/terasology/pathfinding/MazeChunkGenerator.java:66-68 | stairs are listed with strictly increasing level and non-decreasing row |
| StairSearch.StairsOnWalls | src/main/java/org/terasology/pathfinding/MazeChunkGenerator.java:72-94 | the in-grid cells of every stair's row from its anchor to anchor plus 4 are walls in both levels it joins |
| CursorExample.RowCanMoveLeft | src/main/java/org/terasology/pathfinding/MazeChunkGenerator.java:88-97 | after a failed search the cursor's column returns to 0, so a later stair on the same row can be anchored further left: one concrete five-level construction where this happens |
| Raster.IsPassage | src/main/java/org/terasology/pathfinding/MazeChunkGenerator.java:125 | the band test: the maze cell lies inside the grid and is `true` |
| Raster.TorchSpot | src/main/java/org/terasology/pathfinding/MazeChunkGenerator.java:129 | the torch lattice: both maze coordinates are 1 modulo 3 |
| Raster.BandBlock | src/main/java/org/terasology/pathfinding/MazeChunkGenerator.java:123-135 | the block `dy` voxels above a level's floor: ground at the floor; ground over a passage cell; a torch one voxel up over another cell on the lattice; air otherwise |
| Raster.BandAt | src/main/java/org/terasology/pathfinding/MazeChunkGenerator.java:115-139 | the band block of the level whose band holds the voxel, the level being the voxel's height above `startHeight` divided by 3 |
| Raster.AfterBands | src/main/java/org/terasology/pathfinding/MazeChunkGenerator.java:118-140 | the chunk after the band loop: the band block inside the band box, the old contents elsewhere |
| Raster.Covers | src/main/java/org/terasology/pathfinding/MazeChunkGenerator.java:143-168 | the voxels a stair writes: the four columns from `stairX - offsetX` on row `stairZ - offsetZ`, only inside the chunk, at 1 to 3 voxels above its level's floor |
| Raster.StepBlock | src/main/java/org/terasology/pathfinding/MazeChunkGenerator.java:147-167 | column `k` of a stair is ground exactly at height `k` above the floor and air elsewhere, so column 0 is all air |
| Raster.StairBlockAt | src/main/java/org/terasology/pathfinding/MazeChunkGenerator.java:143-168 | the block a stair writes at a voxel, from the voxel's column offset and its height above the stair level's floor |
| Raster.Stamped | src/main/java/org/terasology/pathfinding/MazeChunkGenerator.java:141-169 | the stairs stamped in list order: the last stair that covers a voxel decides it; none when no stair covers it |
| Raster.RasterBlock | src/main/java/org/terasology/pathfinding/MazeChunkGenerator.java:111-171 | the chunk after generation: unchanged when the guard at line 116 fails, otherwise the stamped stairs over the bands over the old contents |
| Raster.BandAtLevel | src/main/java/org/terasology/pathfinding/MazeChunkGenerator.java:115-139 | a voxel in the band of level `l` (floor at `startHeight + 3l`, kept in the `y += 3` accumulator) gets its block from level `l`'s maze, at its height above that floor |
| Raster.BandColumnStep | src/main/java/org/terasology/pathfinding/MazeChunkGenerator.java:120-136 | writing the floor and the two clearance voxels of one column extends the written part of the band by that column and changes nothing else |
| Raster.BandRowStep | src/main/java/org/terasology/pathfinding/MazeChunkGenerator.java:119-138 | a band row is complete after its 16 columns, and the band is complete after its 16 rows |
| Raster.BandsStep | src/main/java/org/terasology/pathfinding/MazeChunkGenerator.java:118-140 | writing level `l`'s band over the first `l` bands gives the first `l + 1` bands |
| Raster.StampedStep | src/main/java/org/terasology/pathfinding/MazeChunkGenerator.java:141-169 | stamping one more stair overrides the earlier stamps exactly where it writes |
| Raster.StairsStep | src/main/java/org/terasology/pathfinding/MazeChunkGenerator.java:141-169 | stamping stair `i` over the bands and the first `i` stairs gives the bands and the first `i + 1` stairs |
| Raster.StampedInBands | src/main/java/org/terasology/pathfinding/MazeChunkGenerator.java:143-168 | stairs only write inside the chunk, above the bottom floor and no higher than the top level's floor |
| Raster.RasterFrame | src/main/java/org/terasology/pathfinding/MazeChunkGenerator.java:116-168 | a voxel changes only when the chunk origin is inside the footprint and the voxel lies in the box of the level bands |
| Raster.StampedAt | src/main/java/org/terasology/pathfinding/MazeChunkGenerator.java:141-169 | with strictly increasing levels, stairs never overlap, so a covered voxel holds its stair's step block |
| Raster.StairsOverride | src/main/java/org/terasology/pathfinding/MazeChunkGenerator.java:141-169 | in the generated chunk, a voxel a stair covers holds that stair's step block, whatever the band put there |
| Raster.BandPolarity | src/main/java/org/terasology/pathfinding/MazeChunkGenerator.java:118-135 | after the band phase: the floor is ground; a clearance voxel is ground exactly over an in-grid passage cell; a torch stands exactly one voxel above the floor of a wall cell on the mod-3 lattice |
| Generator.MazeChunkGenerator.constructor | src/main/java/org/terasology/pathfinding/MazeChunkGenerator.java:55-69 | the fields hold the arguments, and the mazes are the given levels. The stairs are the fold of the search over all adjacent pairs, at most `levels - 1` of them, sorted by level and row, each on walls of both levels |
| Generator.MazeChunkGenerator.InsertStairs | src/main/java/org/terasology/pathfinding/MazeChunkGenerator.java:71-98 | appends the stair `(x - 4, level, y)` for the first-run cell, or nothing. The cursor moves to the found cell; on failure it goes to column 0 of its row |
| Generator.MazeChunkGenerator.GenerateChunk | src/main/java/org/terasology/pathfinding/MazeChunkGenerator.java:111-171 | every voxel ends up as `RasterBlock`: the stairs over the bands over the old contents. Outside the footprint the chunk is unchanged |
| Generator.MazeChunkGenerator.FillBand | src/main/java/org/terasology/pathfinding/MazeChunkGenerator.java:119-138 | writes exactly the band of one level, with the block the band rule gives each voxel, and nothing else |
| Generator.StampStair | src/main/java/org/terasology/pathfinding/MazeChunkGenerator.java:142-168 | writes exactly the voxels the stair covers, each with its step block, and nothing else |
| Generator.StampColumn | src/main/java/org/terasology/pathfinding/MazeChunkGenerator.java:146-150 | writes the three voxels above the base of one column when the column lies inside the chunk, and nothing otherwise |

## Left out

- `createMaze`, `MazeGenerator` and `java.util.Random` (lines 59, 100-108) are not part of this
  model. The constructor takes the level grids as an argument instead of a level count and a seed.
  It requires non-negative dimensions and grids of `height` rows of `width` cells, the shape the
  maze generator produces. Seed determinism is out of scope for the same reason.
- `BlockManager`, `CoreRegistry` and the block-name lookups (lines 41-44) are foreign registry
  calls. Blocks are the three values `Ground`, `Air` and `Torch`.
- The logger (lines 39, 117) only does I/O.
- `setWorldSeed`, `setWorldBiomeProvider`, `getInitParameters` and `setInitParameters`
  (lines 173-191) carry no behaviour.
- The host `Chunk` class is not part of this model.
  - Its storage is a map from chunk-local voxel to block.
  - Its horizontal size is 16 × 16.
  - Heights are unbounded: the generator never checks y against the chunk's height.
- 32-bit overflow of Java `int` is not modelled. Coordinates and heights are unbounded integers, so
  `startHeight + 3 * level` and `offset + x` never wrap.
- The `BitSet` rows are sequences of booleans. Every lookup the generator makes is within `width`,
  so a `BitSet`'s false-beyond-its-length reads never arise.
