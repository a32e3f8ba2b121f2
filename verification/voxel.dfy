/**
  The smallest unit of world data: a voxel carrying the id of a registered
  block material.
 */
module Voxels {

  /** Unsigned 8-bit integers. */
  type u8 = x: int | 0 <= x < 0x100

  /** Block material ids are bytes, so at most 256 distinct materials exist. */
  type BlockMaterialId = u8

  /** A voxel is a plain value; equality is structural on its one field. */
  datatype Voxel = Voxel(blockId: BlockMaterialId)

  /** The reserved "no block" voxel. */
  const EMPTY_VOXEL: Voxel := FromBlockId(0)

  /** Builds the voxel of a given block material. */
  function FromBlockId(blockId: BlockMaterialId): (v: Voxel)
    ensures v.blockId == blockId
  {
    Voxel(blockId)
  }

  /** The default voxel is the empty one. */
  function Default(): (v: Voxel)
    ensures v.blockId == 0
    ensures v == EMPTY_VOXEL
  {
    EMPTY_VOXEL
  }

  /** The empty voxel carries the reserved id 0, and only it does. */
  lemma EmptyVoxelIsZero(v: Voxel)
    ensures EMPTY_VOXEL.blockId == 0
    ensures v == EMPTY_VOXEL <==> v.blockId == 0
  {
  }

  /** Voxels are equal exactly when their block ids are, so `FromBlockId` is
      a bijection between block ids and voxels. */
  lemma VoxelEquality(a: Voxel, b: Voxel)
    ensures a == b <==> a.blockId == b.blockId
    ensures FromBlockId(a.blockId) == a
  {
  }
}
