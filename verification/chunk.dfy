/**
  A chunk: a dense 16 x 256 x 16 block of voxels stored in one flat sequence,
  addressed through a fixed coordinate <-> index linearisation (x fastest,
  then y, then z), with axis-aligned sub-region fill.
 */
module Chunk {
  import opened Voxels

  /** Unsigned 32-bit integers, the component type of coordinates. */
  type u32 = x: int | 0 <= x < 0x1_0000_0000

  const CHUNK_LENGTH: nat := 16
  const CHUNK_HEIGHT: nat := 256

  /** A coordinate or a per-axis size. */
  datatype UVec3 = UVec3(x: u32, y: u32, z: u32)

  /** An axis-aligned box: a minimum corner and a per-axis size. */
  datatype Extent = Extent(minimum: UVec3, shape: UVec3)

  /** The compile-time shape of a chunk: CHUNK_LENGTH x CHUNK_HEIGHT x CHUNK_LENGTH,
      written with literal extents so that index arithmetic stays linear. */
  datatype ChunkShape = ChunkShape {

    /** Number of cells of a chunk. */
    function Size(): nat
    {
      16 * 256 * 16
    }

    /** Whether a coordinate lies inside the chunk. */
    predicate Contains(p: UVec3)
    {
      p.x < CHUNK_LENGTH && p.y < CHUNK_HEIGHT && p.z < CHUNK_LENGTH
    }

    /** Flat storage offset of an in-chunk coordinate. */
    function Linearize(p: UVec3): (i: nat)
      requires Contains(p)
      ensures i < Size()
    {
      p.x + 16 * (p.y + 256 * p.z)
    }

    /** Coordinate stored at a flat offset. */
    function Delinearize(i: nat): (p: UVec3)
      requires i < Size()
      ensures Contains(p)
    {
      UVec3(i % 16, (i / 16) % 256, i / (16 * 256))
    }
  }

  const SHAPE: ChunkShape := ChunkShape

  /** The chunk holds CHUNK_LENGTH x CHUNK_HEIGHT x CHUNK_LENGTH = 65536 cells. */
  lemma SizeIsVolume()
    ensures SHAPE.Size() == CHUNK_LENGTH * CHUNK_HEIGHT * CHUNK_LENGTH == 65536
  {
  }

  /** Delinearize undoes Linearize on every in-chunk coordinate. */
  lemma DelinearizeLinearize(p: UVec3)
    requires SHAPE.Contains(p)
    ensures SHAPE.Delinearize(SHAPE.Linearize(p)) == p
  {
  }

  /** Linearize undoes Delinearize on every flat offset. */
  lemma LinearizeDelinearize(i: nat)
    requires i < SHAPE.Size()
    ensures SHAPE.Linearize(SHAPE.Delinearize(i)) == i
  {
  }

  /** The linearisation is a bijection between in-chunk coordinates and
      [0, Size()): it is injective, and every offset is reached. */
  lemma LinearizeBijective()
    ensures forall p, q :: SHAPE.Contains(p) && SHAPE.Contains(q) && SHAPE.Linearize(p) == SHAPE.Linearize(q) ==> p == q
    ensures forall i :: 0 <= i < SHAPE.Size() ==> SHAPE.Contains(SHAPE.Delinearize(i)) && SHAPE.Linearize(SHAPE.Delinearize(i)) == i
  {
  }

  /** A chunk's voxels in storage order, with its shape. */
  datatype ChunkBuffer = ChunkBuffer(data: seq<Voxel>, shape: ChunkShape) {

    /** Storage holds exactly one cell per coordinate. */
    predicate Valid()
    {
      |data| == shape.Size()
    }
  }

  /** A chunk with every cell set to `initial`. */
  function New(initial: Voxel): (c: ChunkBuffer)
    ensures c.Valid() && |c.data| == 65536
    ensures forall p :: SHAPE.Contains(p) ==> VoxelAt(c, p) == initial
  {
    ChunkBuffer(seq(SHAPE.Size(), _ => initial), SHAPE)
  }

  /** A chunk with every cell empty. */
  function NewEmpty(): (c: ChunkBuffer)
    ensures c.Valid()
    ensures forall p :: SHAPE.Contains(p) ==> VoxelAt(c, p).blockId == 0
  {
    New(EMPTY_VOXEL)
  }

  /** The voxel stored at an in-chunk coordinate: the cell at the one
      storage offset whose coordinate is `pos`. */
  function VoxelAt(c: ChunkBuffer, pos: UVec3): (v: Voxel)
    requires c.Valid() && c.shape.Contains(pos)
    ensures exists i :: 0 <= i < |c.data| && c.shape.Delinearize(i) == pos && c.data[i] == v
  {
    DelinearizeLinearize(pos);
    c.data[c.shape.Linearize(pos)]
  }

  /** A point lookup sees exactly its own cell: overwriting the cell of `p`
      changes the voxel at `p` and at no other coordinate. */
  lemma VoxelAtReadsOwnCell(c: ChunkBuffer, p: UVec3, v: Voxel)
    requires c.Valid() && SHAPE.Contains(p)
    ensures var c' := ChunkBuffer(c.data[SHAPE.Linearize(p) := v], c.shape);
      && c'.Valid()
      && forall q :: SHAPE.Contains(q) ==> VoxelAt(c', q) == if q == p then v else VoxelAt(c, q)
  {
    LinearizeBijective();
  }

  /** All cells in storage order: the cell at offset i is the voxel at the
      coordinate that offset delinearizes to. */
  function Slice(c: ChunkBuffer): (s: seq<Voxel>)
    requires c.Valid()
    ensures |s| == c.shape.Size()
    ensures forall i :: 0 <= i < |s| ==> s[i] == VoxelAt(c, c.shape.Delinearize(i))
  {
    LinearizeBijective();
    c.data
  }

  /** The shape a chunk is addressed through (there is only one): the one
      whose linearisation locates every voxel in the storage slice. */
  function Shape(c: ChunkBuffer): (s: ChunkShape)
    requires c.Valid()
    ensures forall p :: s.Contains(p) ==> Slice(c)[s.Linearize(p)] == VoxelAt(c, p)
  {
    c.shape
  }

  /** Whether a box lies entirely inside the chunk. */
  predicate ExtentInChunk(e: Extent)
  {
    && e.minimum.x + e.shape.x <= CHUNK_LENGTH
    && e.minimum.y + e.shape.y <= CHUNK_HEIGHT
    && e.minimum.z + e.shape.z <= CHUNK_LENGTH
  }

  /** Whether a coordinate lies in a box: minimum <= p < minimum + shape on each axis. */
  predicate InExtent(e: Extent, p: UVec3)
  {
    && e.minimum.x <= p.x < e.minimum.x + e.shape.x
    && e.minimum.y <= p.y < e.minimum.y + e.shape.y
    && e.minimum.z <= p.z < e.minimum.z + e.shape.z
  }

  /** Storage of a filled chunk, offset by offset. */
  function FilledData(c: ChunkBuffer, e: Extent, val: Voxel): (d: seq<Voxel>)
    requires c.Valid()
    ensures |d| == SHAPE.Size()
  {
    seq(SHAPE.Size(), i requires 0 <= i < SHAPE.Size() => if InExtent(e, SHAPE.Delinearize(i)) then val else c.data[i])
  }

  /** The filled storage, read at any coordinate. */
  lemma FilledDataAt(c: ChunkBuffer, e: Extent, val: Voxel)
    requires c.Valid()
    ensures forall p :: SHAPE.Contains(p) ==>
      FilledData(c, e, val)[SHAPE.Linearize(p)] == if InExtent(e, p) then val else c.data[SHAPE.Linearize(p)]
  {
    forall p | SHAPE.Contains(p)
      ensures FilledData(c, e, val)[SHAPE.Linearize(p)] == if InExtent(e, p) then val else c.data[SHAPE.Linearize(p)]
    {
      DelinearizeLinearize(p);
    }
  }

  /** Reference meaning of a fill: cells inside the box become `val`, all
      others keep their voxel. */
  function Filled(c: ChunkBuffer, e: Extent, val: Voxel): (r: ChunkBuffer)
    requires c.Valid()
    ensures r.Valid() && r.shape == c.shape
    ensures forall p :: SHAPE.Contains(p) ==> VoxelAt(r, p) == if InExtent(e, p) then val else VoxelAt(c, p)
  {
    assert c.shape == SHAPE;
    FilledDataAt(c, e, val);
    ChunkBuffer(FilledData(c, e, val), c.shape)
  }

  /** The inside/outside contract determines a fill completely: a chunk of
      the same shape that holds `val` inside the box and the old voxels
      outside it is the reference fill, and conversely. */
  lemma FilledUnique(c: ChunkBuffer, e: Extent, val: Voxel, r: ChunkBuffer)
    requires c.Valid() && r.Valid() && r.shape == c.shape
    ensures r == Filled(c, e, val) <==>
      forall p :: SHAPE.Contains(p) ==> VoxelAt(r, p) == if InExtent(e, p) then val else VoxelAt(c, p)
  {
    var f := Filled(c, e, val);
    if forall p :: SHAPE.Contains(p) ==> VoxelAt(r, p) == if InExtent(e, p) then val else VoxelAt(c, p) {
      forall i | 0 <= i < SHAPE.Size()
        ensures r.data[i] == f.data[i]
      {
        var p := SHAPE.Delinearize(i);
        LinearizeDelinearize(i);
        assert r.data[i] == VoxelAt(r, p) && f.data[i] == VoxelAt(f, p);
      }
      assert r.data == f.data;
    }
  }

  /** Filling a box twice with the same voxel is the same as filling it once. */
  lemma FilledIdempotent(c: ChunkBuffer, e: Extent, val: Voxel)
    requires c.Valid()
    ensures Filled(Filled(c, e, val), e, val) == Filled(c, e, val)
  {
  }

  /** Filling the bottom layer of an empty chunk with block 2 sets exactly
      that layer: every cell at y = 0 holds block 2, every cell at y = 1 is
      still empty. */
  lemma BottomLayerFill(x: u32, z: u32)
    requires x < CHUNK_LENGTH && z < CHUNK_LENGTH
    ensures var c := Filled(NewEmpty(), Extent(UVec3(0, 0, 0), UVec3(16, 1, 16)), FromBlockId(2));
      && VoxelAt(c, UVec3(x, 0, z)).blockId == 2
      && VoxelAt(c, UVec3(x, 1, z)) == EMPTY_VOXEL
  {
  }

  // ---------------------------------------------------------------------
  // The fill algorithm: visit the box z-major, then y, then x, writing
  // `val` at the linearized position of each visited coordinate.
  // ---------------------------------------------------------------------

  /** Whether `p` is one of the box's coordinates visited before offset
      (z, y, x) in z-then-y-then-x order. */
  ghost predicate Visited(e: Extent, p: UVec3, z: int, y: int, x: int)
  {
    && InExtent(e, p)
    && var dz, dy, dx := p.z - e.minimum.z, p.y - e.minimum.y, p.x - e.minimum.x;
       dz < z || (dz == z && (dy < y || (dy == y && dx < x)))
  }

  /** `d` is `orig` with exactly the cells visited before (z, y, x) set to `val`. */
  ghost predicate FilledUpTo(orig: seq<Voxel>, d: seq<Voxel>, e: Extent, val: Voxel, z: int, y: int, x: int)
  {
    && |orig| == SHAPE.Size() && |d| == SHAPE.Size()
    && forall i :: 0 <= i < SHAPE.Size() ==>
         d[i] == if Visited(e, SHAPE.Delinearize(i), z, y, x) then val else orig[i]
  }

  /** Writing the next box coordinate extends the visited prefix by one. */
  lemma WriteNext(orig: seq<Voxel>, d: seq<Voxel>, e: Extent, val: Voxel, z: nat, y: nat, x: nat)
    requires ExtentInChunk(e) && z < e.shape.z && y < e.shape.y && x < e.shape.x
    requires FilledUpTo(orig, d, e, val, z, y, x)
    ensures SHAPE.Contains(UVec3(e.minimum.x + x, e.minimum.y + y, e.minimum.z + z))
    ensures FilledUpTo(orig, d[SHAPE.Linearize(UVec3(e.minimum.x + x, e.minimum.y + y, e.minimum.z + z)) := val], e, val, z, y, x + 1)
  {
    var q := UVec3(e.minimum.x + x, e.minimum.y + y, e.minimum.z + z);
    var j := SHAPE.Linearize(q);
    DelinearizeLinearize(q);
    var d' := d[j := val];
    forall i | 0 <= i < SHAPE.Size()
      ensures d'[i] == if Visited(e, SHAPE.Delinearize(i), z, y, x + 1) then val else orig[i]
    {
      var p := SHAPE.Delinearize(i);
      LinearizeDelinearize(i);
      if i != j {
        assert p != q;
      }
    }
  }

  /** Fills one x-row of the box, at y-offset `y` of z-layer `z`. */
  method FillRow(orig: seq<Voxel>, d: seq<Voxel>, e: Extent, val: Voxel, z: nat, y: nat) returns (r: seq<Voxel>)
    requires ExtentInChunk(e) && z < e.shape.z && y < e.shape.y
    requires FilledUpTo(orig, d, e, val, z, y, 0)
    ensures FilledUpTo(orig, r, e, val, z, y + 1, 0)
  {
    r := d;
    var x: nat := 0;
    while x < e.shape.x
      invariant x <= e.shape.x
      invariant FilledUpTo(orig, r, e, val, z, y, x)
    {
      WriteNext(orig, r, e, val, z, y, x);
      r := r[SHAPE.Linearize(UVec3(e.minimum.x + x, e.minimum.y + y, e.minimum.z + z)) := val];
      x := x + 1;
    }
  }

  /** Fills one z-layer of the box, at z-offset `z`. */
  method FillLayer(orig: seq<Voxel>, d: seq<Voxel>, e: Extent, val: Voxel, z: nat) returns (r: seq<Voxel>)
    requires ExtentInChunk(e) && z < e.shape.z
    requires FilledUpTo(orig, d, e, val, z, 0, 0)
    ensures FilledUpTo(orig, r, e, val, z + 1, 0, 0)
  {
    r := d;
    var y: nat := 0;
    while y < e.shape.y
      invariant y <= e.shape.y
      invariant FilledUpTo(orig, r, e, val, z, y, 0)
    {
      r := FillRow(orig, r, e, val, z, y);
      y := y + 1;
    }
  }

  /** Sets every cell of the box to `val`, leaving every other cell unchanged. */
  method FillExtent(c: ChunkBuffer, e: Extent, val: Voxel) returns (r: ChunkBuffer)
    requires c.Valid() && ExtentInChunk(e)
    ensures r.Valid() && r.shape == c.shape && |r.data| == |c.data|
    ensures forall p :: SHAPE.Contains(p) && InExtent(e, p) ==> VoxelAt(r, p) == val
    ensures forall p :: SHAPE.Contains(p) && !InExtent(e, p) ==> VoxelAt(r, p) == VoxelAt(c, p)
  {
    var d := c.data;
    var z: nat := 0;
    while z < e.shape.z
      invariant z <= e.shape.z
      invariant FilledUpTo(c.data, d, e, val, z, 0, 0)
    {
      d := FillLayer(c.data, d, e, val, z);
      z := z + 1;
    }
    r := ChunkBuffer(d, c.shape);
    assert r.data == Filled(c, e, val).data;
  }

  /** Running the fill twice with the same box and voxel gives the same
      chunk as running it once. */
  method FillExtentTwice(c: ChunkBuffer, e: Extent, val: Voxel) returns (once: ChunkBuffer, twice: ChunkBuffer)
    requires c.Valid() && ExtentInChunk(e)
    ensures once.Valid() && twice == once
    ensures forall p :: SHAPE.Contains(p) && InExtent(e, p) ==> VoxelAt(once, p) == val
  {
    once := FillExtent(c, e, val);
    twice := FillExtent(once, e, val);
    FilledUnique(c, e, val, once);
    FilledUnique(once, e, val, twice);
    FilledIdempotent(c, e, val);
  }

  /** The fill run on an empty chunk over the bottom layer, min (0,0,0) and
      size (16,1,16), with block 2: the layer at y = 0 holds block 2 and the
      layer at y = 1 is still empty. */
  method FillBottomLayer() returns (c: ChunkBuffer)
    ensures c.Valid()
    ensures forall x: u32, z: u32 :: x < CHUNK_LENGTH && z < CHUNK_LENGTH ==>
      VoxelAt(c, UVec3(x, 0, z)).blockId == 2 && VoxelAt(c, UVec3(x, 1, z)) == EMPTY_VOXEL
  {
    var empty := NewEmpty();
    var layer := Extent(UVec3(0, 0, 0), UVec3(16, 1, 16));
    c := FillExtent(empty, layer, FromBlockId(2));
    forall x: u32, z: u32 | x < CHUNK_LENGTH && z < CHUNK_LENGTH
      ensures VoxelAt(c, UVec3(x, 0, z)).blockId == 2 && VoxelAt(c, UVec3(x, 1, z)) == EMPTY_VOXEL
    {
      assert InExtent(layer, UVec3(x, 0, z)) && !InExtent(layer, UVec3(x, 1, z));
      assert VoxelAt(empty, UVec3(x, 1, z)).blockId == 0;
    }
  }
}
