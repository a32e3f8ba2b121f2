# World-data storage core of bevy-minecraft-rs, in Dafny

This project models the world-data storage core of a small voxel game built on
Bevy. It has four parts:

- **Voxels** (`voxel.dfy`): a voxel is a plain value wrapping a `u8` block
  material id. Id `0` is the reserved `EMPTY_VOXEL`, which is also the default voxel.
- **Chunk** (`chunk.dfy`): a chunk buffer is a dense 16 × 256 × 16 sequence of
  voxels.
  - `ChunkShape` linearises coordinates as `x + 16 * (y + 256 * z)`, so x varies
    fastest, and delinearises them back. `New`, `NewEmpty`, `VoxelAt`, `Slice`
    and `Shape` model the buffer's constructors and accessors.
  - `fill_extent` is modelled twice. `FillExtent` (with the helpers `FillRow`
    and `FillLayer`) visits the box z, then y, then x, and writes the value at
    each linearised position. That order is the model's own; the result does
    not depend on it, because every box cell is written once with the same
    value.
    `Filled` is a declarative reference: inside the box the cell becomes the
    value, outside it stays the same. `FilledUnique` shows that this
    inside/outside contract, which the method is proved to meet, determines
    the reference fill exactly.
- **Registry** (`registry.dfy`): a named, insert-once `map` from keys to values.
  - In the source, a duplicate `register` and a missing-key `get` both panic.
    Each panic is modelled as an `Outcome` value, `Panicked(reason)`, which
    carries the fields the panic message reports. The panic branch is therefore
    part of the model, not just excluded by a precondition.
  - `RegisterAll` chains `register` calls in order, which is how the
    uniqueness property is stated for arbitrary sequences of calls.
  - `BuildBlockRegistry` is the registry plugin's start-up contents.
- **AssetTracking** (`asset_tracker.dfy`): a tracker is a set of opaque asset
  handles, with idempotent `Track`, `Len` and `IsEmpty`.
  - The polling system is `PollNextState`. The asset server's group load state
    is an oracle parameter, a function from the tracked set to a `LoadState`.
  - Bevy's `NextState` is deferred: a request made in one frame takes effect at
    the start of the next. The model therefore keeps the current state, the
    pending next state and the tracker together in `App`.
  - `Frame` does three things in order: it applies the pending transition, lets
    producers track handles, and runs the poll last, and only while the state
    is `Loading`. `RunFrames` runs a sequence of frames.

## Model

| member | source | states |
|---|---|---|
| Voxels.FromBlockId | src/voxel/mod.rs:16-18 | For every id in the `u8` range 0..=255, the constructed voxel carries exactly that block id. |
| Voxels.Default | src/voxel/mod.rs:21-25 | The default voxel is `EMPTY_VOXEL`, whose id is 0. |
| Voxels.EmptyVoxelIsZero | src/voxel/mod.rs:14 | `EMPTY_VOXEL` has block id 0, and a voxel is the empty one exactly when its id is 0. |
| Voxels.VoxelEquality | src/voxel/mod.rs:7-11 | Two voxels are equal iff their block ids are equal, so `from_block_id` of a voxel's id gives back that voxel. |
| Chunk.SizeIsVolume | src/voxel/chunk/mod.rs:8-11 | The chunk shape 16 × 256 × 16 has 65536 cells. |
| Chunk.DelinearizeLinearize | src/voxel/chunk/mod.rs:11 | For every in-chunk coordinate, delinearising its linear index gives the coordinate back. |
| Chunk.LinearizeDelinearize | src/voxel/chunk/mod.rs:11 | For every index in [0, 65536), linearising its delinearised coordinate gives the index back. |
| Chunk.LinearizeBijective | src/voxel/chunk/mod.rs:11 | Linearisation is injective on in-chunk coordinates, and every index in [0, 65536) is the image of an in-chunk coordinate. |
| Chunk.New | src/voxel/chunk/mod.rs:21-28 | The new buffer has exactly 65536 cells, and the voxel at every in-chunk coordinate is `initial`. |
| Chunk.NewEmpty | src/voxel/chunk/mod.rs:30-32 | Every in-chunk coordinate of the new buffer holds block id 0, the empty voxel. |
| Chunk.Slice | src/voxel/chunk/mod.rs:34-40 | The slice has one cell per coordinate, and the cell at offset i is what `voxel_at` returns for the coordinate that i delinearises to. |
| Chunk.VoxelAt | src/voxel/chunk/mod.rs:34-36 | For an in-chunk coordinate, `voxel_at` returns the voxel stored at the one buffer offset whose delinearised coordinate is that position. |
| Chunk.VoxelAtReadsOwnCell | src/voxel/chunk/mod.rs:34-36 | Overwriting the cell at the linear index of `p` changes what `voxel_at` returns at `p`, and at no other in-chunk coordinate. |
| Chunk.Shape | src/voxel/chunk/mod.rs:46-48 | The returned shape locates every voxel: for each in-chunk coordinate, the slice at that shape's linear index holds what `voxel_at` returns there. |
| Chunk.Filled | src/voxel/chunk/mod.rs:42-44 | Reference fill: every in-chunk coordinate inside the box holds `val`, and every other coordinate keeps its voxel. The length and shape are preserved. |
| Chunk.FillExtent | src/voxel/chunk/mod.rs:42-44 | For a box inside the chunk, the z/y/x fill loop sets every coordinate inside the box to `val` and leaves every coordinate outside unchanged. It preserves the buffer length and the shape. |
| Chunk.FilledUnique | src/voxel/chunk/mod.rs:42-44 | A chunk of the same shape equals the reference fill iff it holds `val` at every coordinate inside the box and the old voxel at every coordinate outside it. So the inside/outside contract determines the fill. |
| Chunk.FilledIdempotent | src/voxel/chunk/mod.rs:42-44 | Filling the same box with the same voxel twice gives the same buffer as filling it once. |
| Chunk.BottomLayerFill | src/voxel/chunk/mod.rs:30-44 | On an empty chunk, filling the box min (0,0,0), size (16,1,16) with block 2 gives block 2 at every (x,0,z) and leaves every (x,1,z) empty. |
| Chunk.FillExtentTwice | src/voxel/chunk/mod.rs:42-44 | Running the fill loop twice with the same box and voxel gives the same buffer as running it once, and that buffer holds the voxel everywhere inside the box. |
| Chunk.FillBottomLayer | src/voxel/chunk/mod.rs:30-44 | On a new empty chunk, the fill loop on the box min (0,0,0), size (16,1,16) with block 2 sets block 2 at every (x,0,z) and leaves every (x,1,z) empty. |
| Registry.Register | src/registry/mod.rs:36-47 | Register returns iff the key is absent. It then adds exactly that key, bound to the given value, and keeps the name and every other binding. On an occupied key it panics, reporting the registry name, the incoming value, the key and the value already stored. |
| Registry.Get | src/registry/mod.rs:49-54 | Get returns iff the key is present, and then it returns the stored value. Otherwise it panics, reporting the registry name and the key. |
| Registry.RegisterThenGet | src/registry/mod.rs:36-54 | After registering an absent key, `get` on it returns the value passed in, and `get` on any other key answers exactly as before. |
| Registry.RegisterNeverReplaces | src/registry/mod.rs:37-44 | After a key is registered, any second registration at that key panics and reports the first value, which `get` still returns. |
| Registry.RegisterAllSucceedsIffFresh | src/registry/mod.rs:36-47 | A sequence of registrations succeeds iff its keys are pairwise distinct and none was bound before. Then the name is kept, the domain grows by exactly those keys, old bindings are unchanged, and each key is bound to its registered value. |
| Registry.RegisteredKeysNeverMissing | src/registry/mod.rs:36-54 | After a successful sequence of registrations, `get` never panics on a registered key and returns the value registered with it. |
| Registry.EmptyBlockRegistry | src/registry/mod.rs:62-65 | The block registry starts empty, with name "Block Registry". |
| Registry.BuildBlockRegistry | src/registry/mod.rs:60-77 | After plugin start-up, the block registry holds exactly key 1, bound to "black", and is still named "Block Registry". |
| Registry.StoneAndDirtScenario | src/registry/block.rs:44-67 | Registering 1 → "stone" and 2 → "dirt" into the empty block registry succeeds, and both look up by name. Registering 1 again, with any value, panics. |
| AssetTracking.NewTracker | src/registry/asset_tracker.rs:5-6 | The default tracker tracks no handle. |
| AssetTracking.Track | src/registry/asset_tracker.rs:9-11 | After `track(h)`, `h` is tracked, nothing is removed and nothing else is added. `len` grows by one iff `h` was not yet tracked. |
| AssetTracking.Len | src/registry/asset_tracker.rs:13-15 | `len` is 0 iff no handle is tracked, and it is at least 1 as soon as any handle is tracked. |
| AssetTracking.IsEmpty | src/registry/asset_tracker.rs:13-19 | `is_empty` holds iff `len` is 0, iff no handle is tracked. |
| AssetTracking.TrackIdempotent | src/registry/asset_tracker.rs:6-11 | Tracking a handle twice equals tracking it once, and tracking an already tracked handle changes nothing. |
| AssetTracking.TrackAllAddsExactly | src/registry/asset_tracker.rs:9-15 | After any sequence of `track` calls, the tracked set is the old set plus the handles passed. So `len` counts distinct handles and never exceeds the old length plus the number of calls. |
| AssetTracking.PollNextState | src/registry/asset_tracker.rs:22-39 | When the asset server reports the tracked group `Loaded`, the poll requests `Running`. For every other load state, the pending next state is left as it was. |
| AssetTracking.Frame | src/registry/asset_tracker.rs:22-27 | A frame changes the tracker only through the tracks made in it. The poll only reads the tracker. |
| AssetTracking.FrameStep | src/registry/asset_tracker.rs:27-48 | A frame only ever requests `Running` and never leaves `Running`, and a pending `Running` request takes effect. A frame that starts `Loading` with nothing pending stays `Loading`, and it requests `Running` iff the tracked group is `Loaded`. |
| AssetTracking.RunningIsAbsorbing | src/registry/asset_tracker.rs:44-48 | From `Running`, or with `Running` pending, every run of later frames ends `Running`, or with `Running` still pending, whatever is tracked and whatever the oracle reports. |
| AssetTracking.NeverBackToLoading | src/registry/asset_tracker.rs:44-48 | Once the game state is `Running`, no sequence of later frames returns it to `Loading`. |
| AssetTracking.RunFramesOnlyRequestRunning | src/registry/asset_tracker.rs:27-48 | From an app whose pending request is empty or `Running`, no run of frames ever requests anything but `Running`. |
| AssetTracking.ReachableNeverBackToLoading | src/registry/asset_tracker.rs:44-48 | From start-up, once some run of frames has reached `Running`, every continuation of that run is still `Running`. |
| AssetTracking.StaysLoadingUntilLoaded | src/registry/asset_tracker.rs:35-37 | While the asset server never reports `Loaded`, any number of frames keeps the state `Loading` with nothing pending. |
| AssetTracking.PartialLoadScenario | src/registry/asset_tracker.rs:22-48 | Two handles are tracked and one is loaded: the state stays `Loading`. Once both are loaded, the next poll requests `Running`, and the frame after that is `Running`. |

## Left out

- Panic messages (src/registry/mod.rs:38-44, 52): the model keeps the fields the message reports, not the formatted string.
- `BlockRegistryInfo`: only its `name` is modelled. Its texture handle, material handle and colour are Bevy values, and src/registry/mod.rs and src/registry/block.rs give the type different fields. The registry itself is generic in its value type.
- `handle_register_events`, `RegisterEvent`, `RegistryKey` and `RegistryValue` are imported by src/registry/block.rs but defined nowhere in the modelled files, so they are not part of this model. `RegisterAll` models only a chain of `register` calls in order, and `StoneAndDirtScenario` uses block.rs's two registrations only as a scenario.
- `register_blocks` (texture loading, material creation, event sending) and the plugin wiring in src/lib.rs, src/main.rs and src/render/mod.rs are Bevy glue, so they are not part of this model.
- src/player/mod.rs: camera and keyboard movement is floating-point and window I/O, so it is not part of this model.
- `GameState` is not defined in the modelled files. It is modelled as `Loading | Running`, starting at `Loading`.
- `LoadState`'s `Loading` variant is named `InProgress` here, because `GameState` already has a `Loading` constructor.
- `AssetServer::get_group_load_state` is external. It is a function parameter (`LoadOracle`), and nothing is assumed about what it reports, including for an empty set.
- Handles are a type parameter with equality. Handle internals and the mapping from a handle to its id are left out.
- Bevy's scheduling is reduced to one `Frame` function: the pending state transition is applied first, producers track, and the poll runs last and only while `Loading`. System ordering beyond that is not modelled.
- `ndshape::ConstShape3u32` and `ndcopy::fill3` are third-party and not part of this model. They are specified by the linearisation formula and by the inside/outside fill contract.
- Chunk.VoxelAt: requires an in-chunk coordinate. In the source, a coordinate outside the chunk panics only when its linear index falls outside the buffer. Otherwise it reads another cell, and u32 overflow in the index is also possible.
- Chunk.Shape: there is only one chunk shape value, so the contract holds for any shape. It states what the shape is for, locating every voxel in the slice, not which value is returned.
- Chunk.FillExtent: requires the box to lie inside the chunk. Boxes that stick out are outside the contract, as for `voxel_at`.
- AssetTracking.Len: the contract states only zero-iff-empty and positivity. That it counts distinct handles is stated by `Track` and `TrackAllAddsExactly`, and `usize` overflow is not modelled because a set of handles cannot reach that size.
- AssetTracking.StaysLoadingUntilLoaded: requires that each frame's oracle reports something other than `Loaded` for every set, not just for the set tracked at that frame. This is weaker than a per-frame statement.
