/** What a chunk holds after the maze is rasterized into it, voxel by voxel: the
    level bands (floor plus two clearance voxels per level), then the stairs on top. */
module Raster {
  import opened MazeGrid
  import opened Chunks

  /** The generator's state once construction is over. */
  datatype Dungeon = Dungeon(width: int, height: int, startHeight: int, mazes: seq<Maze>, stairs: seq<Stair>)

  predicate WellFormed(d: Dungeon)
  {
    && 0 <= d.width && 0 <= d.height
    && (forall i :: 0 <= i < |d.mazes| ==> Grid(d.mazes[i], d.width, d.height))
    && (forall i :: 0 <= i < |d.stairs| ==> 0 <= d.stairs[i].level < |d.mazes| - 1)
  }

  /** The rasterizer only runs for a chunk whose origin lies inside the maze footprint. */
  predicate Active(d: Dungeon, ox: int, oz: int)
  {
    0 <= ox < d.width && 0 <= oz < d.height
  }

  predicate IsPassage(maze: Maze, width: int, height: int, mx: int, mz: int)
    requires Grid(maze, width, height) && 0 <= mx && 0 <= mz
  {
    mx < width && mz < height && maze[mz][mx]
  }

  /** The lattice of torch positions: every third cell in both directions. */
  predicate TorchSpot(mx: int, mz: int)
  {
    mx % 3 == 1 && mz % 3 == 1
  }

  /** The block `dy` voxels above a level's floor at maze cell (mx, mz): passage
      cells are solid, wall cells are open corridor with a torch on the lattice. */
  function BandBlock(maze: Maze, width: int, height: int, mx: int, mz: int, dy: int): Block
    requires Grid(maze, width, height) && 0 <= mx && 0 <= mz
  {
    if dy == 0 then Ground
    else if IsPassage(maze, width, height, mx, mz) then Ground
    else if dy == 1 && TorchSpot(mx, mz) then Torch
    else Air
  }

  /** Voxel `p` lies in the band of level `l`. */
  predicate InLevel(startHeight: int, l: int, p: Voxel)
  {
    InChunk(p.x, p.z) && startHeight + 3 * l <= p.y < startHeight + 3 * l + 3
  }

  /** Voxel `p` lies in the band of one of the first `l` levels. */
  predicate InBandsBelow(d: Dungeon, l: int, p: Voxel)
  {
    InChunk(p.x, p.z) && d.startHeight <= p.y < d.startHeight + 3 * l
  }

  /** Voxel `p` lies in some level band: the box the rasterizer may write. */
  predicate InBands(d: Dungeon, p: Voxel)
  {
    InBandsBelow(d, |d.mazes|, p)
  }

  /** The band block at `p`, for the level whose band holds `p`. */
  function BandAt(d: Dungeon, ox: int, oz: int, p: Voxel): Block
    requires WellFormed(d) && 0 <= ox && 0 <= oz && InBands(d, p)
  {
    var h := p.y - d.startHeight;
    BandBlock(d.mazes[h / 3], d.width, d.height, ox + p.x, oz + p.z, h % 3)
  }

  /** The chunk after the band phase: bands replace whatever was there. */
  function AfterBands(d: Dungeon, ox: int, oz: int, before: map<Voxel, Block>, p: Voxel): Option<Block>
    requires WellFormed(d) && 0 <= ox && 0 <= oz
  {
    if InBands(d, p) then Some(BandAt(d, ox, oz, p)) else Lookup(before, p)
  }

  /** Stair `s` writes voxel `p`: one of its four columns, inside the chunk, at one
      of the three heights above the floor of its level. */
  predicate Covers(s: Stair, startHeight: int, ox: int, oz: int, p: Voxel)
  {
    var cx := s.x - ox;
    var base := startHeight + 3 * s.level;
    && cx <= p.x < cx + 4
    && p.z == s.z - oz
    && InChunk(p.x, p.z)
    && base < p.y <= base + 3
  }

  /** Column `k` (0 to 3) of a staircase is solid at height `k` above the floor and
      open elsewhere, so column 0 is fully open and the steps rise along x. */
  function StepBlock(k: int, dy: int): Block
  {
    if k == dy then Ground else Air
  }

  function StairBlockAt(s: Stair, startHeight: int, ox: int, p: Voxel): Block
  {
    StepBlock(p.x - (s.x - ox), p.y - (startHeight + 3 * s.level))
  }

  /** Voxel `p` is in the band of level `l` and its column (x, z) comes before
      column (x, z) in the band writer's order: z outer, x inner. */
  predicate BandDone(startHeight: int, l: int, x: int, z: int, p: Voxel)
  {
    InLevel(startHeight, l, p) && (p.z < z || (p.z == z && p.x < x))
  }

  /** `m` holds the band of level `l` (from `maze`) in the columns the band writer
      has visited before column (x, z), and what `before` held everywhere else. */
  ghost predicate BandPartial(m: map<Voxel, Block>, before: map<Voxel, Block>, maze: Maze, width: int, height: int,
                              ox: int, oz: int, startHeight: int, l: int, x: int, z: int)
    requires Grid(maze, width, height) && 0 <= ox && 0 <= oz
  {
    forall p :: Lookup(m, p) ==
      if BandDone(startHeight, l, x, z, p)
      then Some(BandBlock(maze, width, height, ox + p.x, oz + p.z, p.y - (startHeight + 3 * l)))
      else Lookup(before, p)
  }

  /** Writing the floor and the two voxels above it in column (x, z) extends the
      written part of a band by that column. */
  lemma BandColumnStep(maze: Maze, width: int, height: int, ox: int, oz: int, startHeight: int, l: int,
                       x: int, z: int, before: map<Voxel, Block>, m: map<Voxel, Block>, m': map<Voxel, Block>)
    requires Grid(maze, width, height) && 0 <= ox && 0 <= oz && InChunk(x, z)
    requires BandPartial(m, before, maze, width, height, ox, oz, startHeight, l, x, z)
    requires var y := startHeight + 3 * l;
             m' == m[Voxel(x, y, z) := Ground]
                    [Voxel(x, y + 1, z) := BandBlock(maze, width, height, ox + x, oz + z, 1)]
                    [Voxel(x, y + 2, z) := BandBlock(maze, width, height, ox + x, oz + z, 2)]
    ensures BandPartial(m', before, maze, width, height, ox, oz, startHeight, l, x + 1, z)
  {
  }

  /** A band row is complete once all its columns are written, and the band is
      complete once all its rows are. */
  lemma BandRowStep(m: map<Voxel, Block>, before: map<Voxel, Block>, maze: Maze, width: int, height: int,
                    ox: int, oz: int, startHeight: int, l: int, z: int)
    requires Grid(maze, width, height) && 0 <= ox && 0 <= oz
    requires BandPartial(m, before, maze, width, height, ox, oz, startHeight, l, SIZE_X, z)
    ensures BandPartial(m, before, maze, width, height, ox, oz, startHeight, l, 0, z + 1)
    ensures z + 1 == SIZE_Z ==>
              forall p :: Lookup(m, p) ==
                if InLevel(startHeight, l, p)
                then Some(BandBlock(maze, width, height, ox + p.x, oz + p.z, p.y - (startHeight + 3 * l)))
                else Lookup(before, p)
  {
  }

  /** The chunk once the bands of the first `l` levels are written over `before`. */
  function BandsBelow(d: Dungeon, ox: int, oz: int, before: map<Voxel, Block>, l: int, p: Voxel): Option<Block>
    requires WellFormed(d) && 0 <= ox && 0 <= oz && 0 <= l <= |d.mazes|
  {
    if InBandsBelow(d, l, p) then Some(BandAt(d, ox, oz, p)) else Lookup(before, p)
  }

  /** A voxel in the band of level `l` gets its block from level `l`'s maze, at its
      height above that level's floor. */
  lemma BandAtLevel(d: Dungeon, ox: int, oz: int, l: int, p: Voxel)
    requires WellFormed(d) && 0 <= ox && 0 <= oz && 0 <= l < |d.mazes|
    requires InLevel(d.startHeight, l, p)
    ensures InBands(d, p)
    ensures BandAt(d, ox, oz, p) ==
            BandBlock(d.mazes[l], d.width, d.height, ox + p.x, oz + p.z, p.y - (d.startHeight + 3 * l))
  {
  }

  /** Writing level `l`'s band, one maze cell per column, over a chunk holding the
      first `l` bands gives the first `l + 1` bands. */
  lemma BandsStep(d: Dungeon, ox: int, oz: int, before: map<Voxel, Block>, l: int,
                  m: map<Voxel, Block>, m': map<Voxel, Block>)
    requires WellFormed(d) && 0 <= ox && 0 <= oz && 0 <= l < |d.mazes|
    requires forall p :: Lookup(m, p) == BandsBelow(d, ox, oz, before, l, p)
    requires forall p :: Lookup(m', p) ==
               if InLevel(d.startHeight, l, p)
               then Some(BandBlock(d.mazes[l], d.width, d.height, ox + p.x, oz + p.z, p.y - (d.startHeight + 3 * l)))
               else Lookup(m, p)
    ensures forall p :: Lookup(m', p) == BandsBelow(d, ox, oz, before, l + 1, p)
  {
  }

  /** The block the stairs `ss`, stamped in order, leave at `p` (the last one to
      write `p` wins), or None if none of them writes it. */
  function Stamped(ss: seq<Stair>, startHeight: int, ox: int, oz: int, p: Voxel): Option<Block>
    decreases |ss|
  {
    if ss == [] then None
    else
      var s := ss[|ss| - 1];
      if Covers(s, startHeight, ox, oz, p) then Some(StairBlockAt(s, startHeight, ox, p))
      else Stamped(ss[..|ss| - 1], startHeight, ox, oz, p)
  }

  /** Stamping one more stair: it wins where it writes, elsewhere the earlier ones. */
  lemma StampedStep(ss: seq<Stair>, i: int, startHeight: int, ox: int, oz: int, p: Voxel)
    requires 0 <= i < |ss|
    ensures Stamped(ss[..i + 1], startHeight, ox, oz, p) ==
            if Covers(ss[i], startHeight, ox, oz, p) then Some(StairBlockAt(ss[i], startHeight, ox, p))
            else Stamped(ss[..i], startHeight, ox, oz, p)
  {
    assert ss[..i + 1][..i] == ss[..i];
  }

  function Overlay(top: Option<Block>, under: Option<Block>): Option<Block>
  {
    if top.Some? then top else under
  }

  /** Stamping stair `i` over a chunk holding the bands and the first `i` stairs
      gives the bands and the first `i + 1` stairs. */
  lemma StairsStep(d: Dungeon, ox: int, oz: int, before: map<Voxel, Block>, i: int,
                   m: map<Voxel, Block>, m': map<Voxel, Block>)
    requires WellFormed(d) && 0 <= ox && 0 <= oz && 0 <= i < |d.stairs|
    requires forall p :: Lookup(m, p) ==
               Overlay(Stamped(d.stairs[..i], d.startHeight, ox, oz, p), AfterBands(d, ox, oz, before, p))
    requires forall p :: Lookup(m', p) ==
               if Covers(d.stairs[i], d.startHeight, ox, oz, p)
               then Some(StairBlockAt(d.stairs[i], d.startHeight, ox, p))
               else Lookup(m, p)
    ensures forall p :: Lookup(m', p) ==
              Overlay(Stamped(d.stairs[..i + 1], d.startHeight, ox, oz, p), AfterBands(d, ox, oz, before, p))
  {
    forall p
      ensures Lookup(m', p) ==
              Overlay(Stamped(d.stairs[..i + 1], d.startHeight, ox, oz, p), AfterBands(d, ox, oz, before, p))
    {
      StampedStep(d.stairs, i, d.startHeight, ox, oz, p);
    }
  }

  /** The block at chunk-local `p` after the chunk with origin (ox, oz) is generated
      from a chunk holding `before`; None where the chunk holds nothing. */
  function RasterBlock(d: Dungeon, ox: int, oz: int, before: map<Voxel, Block>, p: Voxel): Option<Block>
    requires WellFormed(d)
  {
    if !Active(d, ox, oz) then Lookup(before, p)
    else Overlay(Stamped(d.stairs, d.startHeight, ox, oz, p), AfterBands(d, ox, oz, before, p))
  }

  /** Stairs for levels below the top one only write above the bottom floor and no
      higher than the top level's floor. */
  lemma {:induction false} StampedInBands(ss: seq<Stair>, levels: int, startHeight: int, ox: int, oz: int, p: Voxel)
    requires forall i :: 0 <= i < |ss| ==> 0 <= ss[i].level < levels - 1
    requires Stamped(ss, startHeight, ox, oz, p).Some?
    ensures InChunk(p.x, p.z) && startHeight < p.y <= startHeight + 3 * (levels - 1)
    decreases |ss|
  {
    var s := ss[|ss| - 1];
    if !Covers(s, startHeight, ox, oz, p) {
      StampedInBands(ss[..|ss| - 1], levels, startHeight, ox, oz, p);
    }
  }

  /** Nothing outside the band box changes, and nothing at all when the chunk's
      origin is outside the maze. */
  lemma RasterFrame(d: Dungeon, ox: int, oz: int, before: map<Voxel, Block>, p: Voxel)
    requires WellFormed(d)
    requires RasterBlock(d, ox, oz, before, p) != Lookup(before, p)
    ensures Active(d, ox, oz) && InBands(d, p)
  {
    if Stamped(d.stairs, d.startHeight, ox, oz, p).Some? {
      StampedInBands(d.stairs, |d.mazes|, d.startHeight, ox, oz, p);
    }
  }

  /** With one stair per level, stairs never overlap, so a voxel a stair covers
      holds that stair's step block. */
  lemma {:induction false} StampedAt(ss: seq<Stair>, startHeight: int, ox: int, oz: int, p: Voxel, j: int)
    requires LevelsIncreasing(ss)
    requires 0 <= j < |ss| && Covers(ss[j], startHeight, ox, oz, p)
    ensures Stamped(ss, startHeight, ox, oz, p) == Some(StairBlockAt(ss[j], startHeight, ox, p))
    decreases |ss|
  {
    var last := |ss| - 1;
    if j < last {
      assert ss[j].level < ss[last].level;
      assert !Covers(ss[last], startHeight, ox, oz, p);
      var init := ss[..last];
      assert init[j] == ss[j];
      StampedAt(init, startHeight, ox, oz, p, j);
    }
  }

  /** In the generated chunk, a voxel a stair covers holds that stair's step block. */
  lemma StairsOverride(d: Dungeon, ox: int, oz: int, before: map<Voxel, Block>, p: Voxel, j: int)
    requires WellFormed(d) && LevelsIncreasing(d.stairs) && Active(d, ox, oz)
    requires 0 <= j < |d.stairs| && Covers(d.stairs[j], d.startHeight, ox, oz, p)
    ensures RasterBlock(d, ox, oz, before, p) == Some(StairBlockAt(d.stairs[j], d.startHeight, ox, p))
  {
    StampedAt(d.stairs, d.startHeight, ox, oz, p, j);
  }

  /** The block at height `dy` above the floor of level `l`, before stairs: the floor
      is ground; a clearance voxel is ground exactly over a passage cell; a torch
      appears only one voxel above the floor of a wall cell on the torch lattice. */
  lemma BandPolarity(d: Dungeon, ox: int, oz: int, before: map<Voxel, Block>, l: int, p: Voxel)
    requires WellFormed(d) && Active(d, ox, oz)
    requires 0 <= l < |d.mazes| && InLevel(d.startHeight, l, p)
    ensures var dy := p.y - (d.startHeight + 3 * l);
            var passage := IsPassage(d.mazes[l], d.width, d.height, ox + p.x, oz + p.z);
            && AfterBands(d, ox, oz, before, p).Some?
            && (dy == 0 ==> AfterBands(d, ox, oz, before, p).value == Ground)
            && (dy != 0 ==> (AfterBands(d, ox, oz, before, p).value == Ground <==> passage))
            && (AfterBands(d, ox, oz, before, p).value == Torch <==>
                  dy == 1 && !passage && TorchSpot(ox + p.x, oz + p.z))
  {
  }
}
