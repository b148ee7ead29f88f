/** The host's chunk storage, reduced to what the rasterizer uses: the chunk's world
    origin, its horizontal size, and a block store written one voxel at a time. */
module Chunks {
  import opened MazeGrid

  /** The three block kinds the generator places. */
  datatype Block = Ground | Air | Torch

  /** A chunk-local voxel position. */
  datatype Voxel = Voxel(x: int, y: int, z: int)

  /** The chunk's extent along x and z (16 by 16 in the host engine). */
  const SIZE_X: int := 16
  const SIZE_Z: int := 16

  predicate InChunk(x: int, z: int)
  {
    0 <= x < SIZE_X && 0 <= z < SIZE_Z
  }

  /** The block stored at `p`, if any. */
  function Lookup(m: map<Voxel, Block>, p: Voxel): Option<Block>
  {
    if p in m then Some(m[p]) else None
  }

  class Chunk {
    /** World coordinates of the chunk's local origin. */
    const worldX: int
    const worldZ: int
    /** The voxels written so far; the height is not bounded. */
    var blocks: map<Voxel, Block>

    constructor (worldX: int, worldZ: int, blocks: map<Voxel, Block>)
      ensures this.worldX == worldX && this.worldZ == worldZ && this.blocks == blocks
    {
      this.worldX := worldX;
      this.worldZ := worldZ;
      this.blocks := blocks;
    }

    method SetBlock(x: int, y: int, z: int, b: Block)
      modifies this
      ensures blocks == old(blocks)[Voxel(x, y, z) := b]
    {
      blocks := blocks[Voxel(x, y, z) := b];
    }
  }
}
