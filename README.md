# defendio core, modelled in Dafny

defendio is a small 2D game built on the Bevy engine. This project models the parts of it that do their own bookkeeping:

- the chunked tilemap store (`TilemapData`, `ChunkData`, `TileData`) and the coordinate arithmetic that maps a global tile location to a chunk and a slot;
- the random tilemap generator, which writes a 21 x 21 square of tiles around the origin;
- the chunk mesh builder, which turns one 32 x 32 chunk into four vertices, four UVs and six indices per tile;
- the input-action layer:
  - the four-state trigger (`Pressed`, `JustPressed`, `Released`, `JustReleased`);
  - the sixteen-slot action array with its `consumed` latch;
  - the key and mouse binding map;
  - the per-frame `keyboard_input_system`;
- the world material's uniform flags word and alpha cutoff;
- the light fan mesh;
- the loading-screen handle bookkeeping, in both copies of it.

Each source file is one module:

| module | source file |
|---|---|
| `Common` | `Option`, the Rust integer ranges, and one step of an unordered map walk |
| `Tilemap` | `app/src/tilemap/data.rs` |
| `Generator` | `app/src/tilemap/generator/random.rs` |
| `ChunkMesh` | `app/src/tilemap/bundle.rs` |
| `TriggerState`, `InputAction`, `ActionState` | `app/src/input_manager/action_state.rs` and `action.rs` |
| `Material` | `app/src/world_material/material.rs` |
| `LightMesh` | `app/src/lighting/light_mesh.rs` |
| `AssetLoad` | `app/src/asset/load.rs` |
| `StateLoad` | `app/src/state/load_state.rs` |

Code that updates state in place is modelled imperatively:

- `ChunkData` is a class over a 1024-slot array.
- `TilemapData` is a class holding a map of maps of chunks, with a ghost view `Tiles` of their contents.
- `InputActionState` is a class over a 16-slot array.
- `AssetLoadState` is a class with two sequence fields.
- The loops of `make_chunk_mesh`, `generate`, `get_states`, `update`, `keyboard_input_system`, `make_light_mesh` and `on_load_update` are loops with invariants.

Each loop is proved against a specification function, and that function's properties are proved as lemmas.

### Coordinates: truncation, not floor division

Floor division with a Euclidean remainder would make chunks tile the axis without overlap. The code does something else:

- `tilemap_to_chunk` uses Rust's truncating `/`.
- `tilemap_to_chunk_tile` wraps a negative remainder into `[0, 32)`.

The model follows the code, with `TruncDiv` and `WrapLocal`. It defines the floor version as a reference (`FloorChunk`) and proves exactly where the two agree: for non-negative coordinates and multiples of 32.

With the code as written, global −1 and global 31 land in the same chunk and slot (`NegativeAliasing`, `AliasedWrite`). The generator's square stays clear of this collision: every one of its coordinates lies in chunk (0, 0) and gets a slot of its own.

## Model

| member | source | states |
|---|---|---|
| Common.PickKey | app/src/input_manager/action.rs:40 | one step of the map iteration yields a key still to be visited; the order is left open |
| Tilemap.DefaultTiles | app/src/tilemap/data.rs:62-66 | a new chunk holds 1024 default tiles |
| Tilemap.NewTile | app/src/tilemap/data.rs:110-116 | `TileData::new` has no colour, and is the default tile exactly when the atlas index is 0 |
| Tilemap.TruncDiv | app/src/tilemap/data.rs:44-46 | the chunk coordinate rounds toward zero: the remainder has the sign of the coordinate and is smaller than 32 |
| Tilemap.TruncRem | app/src/tilemap/data.rs:93-94 | Rust's `%` by 32: the remainder left by the truncating quotient, with the sign of the dividend |
| Tilemap.WrapLocal | app/src/tilemap/data.rs:96-105 | the wrapped local coordinate always lies in `[0, 32)` |
| Tilemap.TilemapToChunkTile | app/src/tilemap/data.rs:92-107 | both local coordinates lie in `[0, 32)` |
| Tilemap.TilemapToChunk | app/src/tilemap/data.rs:44-46 | on each axis the chunk coordinate is the quotient rounded toward zero: what is left over has the sign of the coordinate and is smaller than 32 (`AxisRoundTrip` and `TruncMatchesFloorIff` say where this differs from floor division) |
| Tilemap.TileIndexAt | app/src/tilemap/data.rs:88-90 | in-range local coordinates give a slot below 1024 |
| Tilemap.FloorChunk | app/src/tilemap/data.rs:44-46 | reference floor division: the chunk whose 32-wide span contains the coordinate |
| Tilemap.WrapLocalIsResidue | app/src/tilemap/data.rs:92-107 | the wrapped local coordinate is the Euclidean residue mod 32 |
| Tilemap.ChunkTileIsResidue | app/src/tilemap/data.rs:92-107 | `tilemap_to_chunk_tile` is the Euclidean residue on both axes |
| Tilemap.TileIndexDecode | app/src/tilemap/data.rs:88-90 | the slot index decodes back to x (quotient) and y (remainder) |
| Tilemap.TileIndexInjective | app/src/tilemap/data.rs:88-90 | distinct in-range local coordinates have distinct slots |
| Tilemap.FloorRoundTrip | app/src/tilemap/data.rs:92-107 | floor chunk times 32 plus the wrapped local gives back the global coordinate, always |
| Tilemap.AxisRoundTrip | app/src/tilemap/data.rs:44-46 | truncated chunk times 32 plus the local gives back the coordinate exactly when it is non-negative or a multiple of 32, and is 32 too high otherwise |
| Tilemap.TruncMatchesFloorIff | app/src/tilemap/data.rs:44-46 | truncating and floor chunk division agree exactly when the coordinate is non-negative or a multiple of 32 |
| Tilemap.NegativeAliasing | app/src/tilemap/data.rs:44-46 | for 0 < k < 32, global −k and global 32 − k share chunk 0 and local slot 32 − k |
| Tilemap.LocationTestVectors | app/src/tilemap/data.rs:133-142 | the unit test's vectors (40, 45) to (8, 13) and (−1, −5) to (31, 27), and the aliasing of −1 with 31 |
| Tilemap.SlotOf | app/src/tilemap/data.rs:41 | the slot a global location writes to is below 1024 |
| Tilemap.StoredInTwoSteps | app/src/tilemap/data.rs:33-42 | storing a tile is the entry step (insert a default chunk if absent) followed by the slot write |
| Tilemap.StoredSpec | app/src/tilemap/data.rs:33-42 | `set_tile` adds the target column and chunk to the keys, puts the tile in its slot, keeps the other slots (default for a new chunk), and leaves every other chunk unchanged |
| Tilemap.TileAt | app/src/tilemap/data.rs:29-31 | `get_chunk` followed by `get_tile(tilemap_to_chunk_tile(..))`: `Some` exactly when the truncated chunk is stored, and then the tile at slot `32 (x mod 32) + (y mod 32)` (Euclidean residues) of that chunk |
| Tilemap.StoredReadBack | app/src/tilemap/data.rs:29-42 | after a store, the location reads back the tile; other chunks read as before; the other slots of the same chunk read as before, or as the default tile if the chunk was new |
| Tilemap.AliasedWrite | app/src/tilemap/data.rs:33-46 | writing at (−1, 0) is read back at (31, 0) |
| Tilemap.WidenToColumn | app/src/tilemap/data.rs:52-55 | the inner loop of `get_chunk_rect` widens the box to contain every chunk of the column; it only grows, and each bound stays at the origin or at a stored chunk |
| Tilemap.FromCorners | app/src/tilemap/data.rs:57 | `Rect::from_corners` orders the two corners on each axis |
| Tilemap.ChunkData.constructor | app/src/tilemap/data.rs:62-66 | a fresh array of 1024 default tiles |
| Tilemap.ChunkData.GetTileAt | app/src/tilemap/data.rs:72-74 | for in-range local coordinates, `get_tile_at` reads slot `y + 32x` of the chunk's array |
| Tilemap.ChunkData.SetTileAt | app/src/tilemap/data.rs:72-82 | `set_tile_at` changes exactly slot `y + 32x`; `get_tile_at` then reads the new tile there, and for in-range coordinates every other coordinate reads as before |
| Tilemap.InsertKeepsShape | app/src/tilemap/data.rs:35-40 | inserting a chunk keeps the store's key structure matched with the view's |
| Tilemap.InsertKeepsHolding | app/src/tilemap/data.rs:35-40 | inserting a fresh chunk keeps every stored chunk valid, distinct, and equal to its view |
| Tilemap.TilemapData.constructor | app/src/tilemap/data.rs:23-27 | a new tilemap has no chunks |
| Tilemap.TilemapData.GetChunk | app/src/tilemap/data.rs:29-31 | `get_chunk` is `Some` exactly when both keys are present, and then returns that chunk |
| Tilemap.TilemapData.ChunkEntry | app/src/tilemap/data.rs:35-40 | the `entry(..).or_default().entry(..).or_insert_with(..)` chain: an existing chunk is kept, an absent one is inserted as a fresh default chunk, and that chunk is returned |
| Tilemap.TilemapData.InsertChunk | app/src/tilemap/data.rs:40 | `or_insert_with(ChunkData::new)` on an absent key stores a fresh default chunk there |
| Tilemap.TilemapData.WriteSlot | app/src/tilemap/data.rs:41 | the write into the selected chunk changes only that chunk's slot |
| Tilemap.TilemapData.SetTile | app/src/tilemap/data.rs:33-42 | `set_tile` turns the view into `Stored(old view, location, tile)` and keeps the store valid |
| Tilemap.TilemapData.GetChunkRect | app/src/tilemap/data.rs:48-58 | the rectangle contains the origin and every stored chunk, and each of its four bounds is the origin or is reached by a stored chunk |
| Generator.CallIndex | app/src/tilemap/generator/random.rs:20-21 | each location of the square has a call number in `[0, 441)`, row by row |
| Generator.SquareSlot | app/src/tilemap/generator/random.rs:20-24 | every location of the square lies in chunk (0, 0), and its slot decodes back to it |
| Generator.CallIndexInjective | app/src/tilemap/generator/random.rs:20-21 | no two locations of the square share a call number |
| Generator.LocalOfGlobal | app/src/tilemap/generator/random.rs:24 | the wrap of a slot's global coordinate gives back the slot coordinate |
| Generator.SlotOfDecoded | app/src/tilemap/generator/random.rs:24 | a slot inside the square's footprint is the slot of its own decoded location |
| Generator.StepChunk | app/src/tilemap/generator/random.rs:24 | one `set_tile` extends the partially generated chunk by exactly one tile |
| Generator.Step | app/src/tilemap/generator/random.rs:24 | one `set_tile` on the store after k calls gives the store after k + 1 calls |
| Generator.ReplayMatches | app/src/tilemap/generator/random.rs:20-26 | replaying the nested loops up to (x, y) gives the store after `CallIndex(x, y)` calls |
| Generator.ReplayStep | app/src/tilemap/generator/random.rs:21-25 | one iteration of the inner loop advances the replay by one call |
| Generator.Generate | app/src/tilemap/generator/random.rs:8-29 | the result is a valid tilemap holding exactly one chunk, (0, 0), with the generated contents, so `get_chunk(IVec2::ZERO)` is `Some` |
| Generator.WriteRow | app/src/tilemap/generator/random.rs:21-25 | the inner loop takes the store from the start of row y to the start of row y + 1 |
| Generator.GeneratedReadBack | app/src/tilemap/generator/random.rs:20-26 | every location of the square reads back the tile made from its own sample |
| Generator.UnwrittenSlotsDefault | app/src/tilemap/generator/random.rs:20-26 | the slots outside the square's footprint keep the default tile |
| ChunkMesh.Positions | app/src/tilemap/bundle.rs:73 | four positions per visited tile |
| ChunkMesh.VisitRects | app/src/tilemap/bundle.rs:75 | one atlas rectangle per visited tile, 1024 in all |
| ChunkMesh.Uvs | app/src/tilemap/bundle.rs:76-83 | four UVs per visited tile |
| ChunkMesh.Indices | app/src/tilemap/bundle.rs:85 | six indices per visited tile |
| ChunkMesh.VisitOf | app/src/tilemap/bundle.rs:69-70 | visit number `32y + x` decodes to tile (x, y) |
| ChunkMesh.VisitsAreTiles | app/src/tilemap/bundle.rs:69-70 | every visit number below 1024 is an in-range tile, and encodes back |
| ChunkMesh.VisitStep | app/src/tilemap/bundle.rs:71-86 | one visit appends its quad's positions and its offset indices, and reads the atlas rectangle of tile (x, y) through `get_tile_at` |
| ChunkMesh.MakeChunkMesh | app/src/tilemap/bundle.rs:61-96 | the mesh holds the positions, UVs and indices of all 1024 visits in visit order |
| ChunkMesh.EmitRow | app/src/tilemap/bundle.rs:70-87 | the inner loop extends the mesh by one row of 32 tiles and advances the stride by 128 |
| ChunkMesh.IndexOfVisit | app/src/tilemap/bundle.rs:85-86 | index `6k + j` is `QUAD_INDICES[j] + 4k` |
| ChunkMesh.IndicesInRange | app/src/tilemap/bundle.rs:85-86 | every index names an emitted vertex, and the last quad reaches the last vertex |
| ChunkMesh.ChunkMeshSizes | app/src/tilemap/bundle.rs:61-96 | a chunk mesh has 4096 positions and 6144 indices, all at most 4095, and 4095 is used |
| ChunkMesh.PositionOfVisit | app/src/tilemap/bundle.rs:73 | position `4k + j` is corner j of visit k's quad |
| ChunkMesh.TileCorners | app/src/tilemap/bundle.rs:47-52 | tile (x, y)'s four corners are (x, y), (x+1, y), (x+1, y+1), (x, y+1) at z = 0 |
| ChunkMesh.UvOfVisit | app/src/tilemap/bundle.rs:78-83 | UV `4k + j` is corner j of visit k's flipped atlas rectangle |
| ChunkMesh.TileUvs | app/src/tilemap/bundle.rs:75-83 | tile (x, y)'s UVs are its atlas rectangle's normalised corners, flipped vertically, taken from slot `y + 32x` |
| ChunkMesh.QuadTriangles | app/src/tilemap/bundle.rs:53 | the two triangles of a quad cover its four corners and share the diagonal 0–2 |
| TriggerState.Trigger.IsReleased | app/src/input_manager/action_state.rs:123-125 | released exactly in the two states that are not pressed |
| TriggerState.Trigger.IsPressed | app/src/input_manager/action_state.rs:119-121 | pressed exactly when not released |
| TriggerState.Trigger.IsJustPressed | app/src/input_manager/action_state.rs:127-129 | just pressed implies pressed |
| TriggerState.Trigger.IsJustReleased | app/src/input_manager/action_state.rs:131-133 | just released implies released |
| TriggerState.Tick | app/src/input_manager/action_state.rs:97-105 | a tick keeps pressed/released and clears every "just" state |
| TriggerState.Press | app/src/input_manager/action_state.rs:107-111 | after a press the trigger is pressed, and freshly so exactly when it was not already held |
| TriggerState.Release | app/src/input_manager/action_state.rs:113-117 | after a release the trigger is released, and freshly so exactly when it was not already released |
| TriggerState.TickIdempotent | app/src/input_manager/action_state.rs:97-105 | ticking twice is ticking once |
| TriggerState.PressReleaseIdempotent | app/src/input_manager/action_state.rs:107-117 | a second press or a second release changes nothing |
| TriggerState.TickSettles | app/src/input_manager/action_state.rs:97-117 | a press then a tick is held, a release then a tick is settled |
| TriggerState.PressSlot | app/src/input_manager/action_state.rs:59-65 | a consumed slot ignores the press; otherwise the slot ends pressed, with the latch unchanged |
| TriggerState.ReleaseSlot | app/src/input_manager/action_state.rs:67-71 | a release clears the latch and leaves the slot released |
| TriggerState.ConsumeSlot | app/src/input_manager/action_state.rs:73-77 | a consume sets the latch and leaves the slot released |
| TriggerState.ConsumeBlocksPress | app/src/input_manager/action_state.rs:59-77 | after a consume a press does nothing, until a release clears the latch |
| InputAction.Discriminant | app/src/input_manager/action.rs:12-22 | each action's discriminant is below 5 |
| InputAction.TryFrom | app/src/input_manager/action.rs:12-13 | `try_from(n)` succeeds exactly for n in `[0, 5)`, and returns the action with that discriminant |
| InputAction.DiscriminantRoundTrip | app/src/input_manager/action.rs:12-22 | `try_from` inverts the discriminant, and distinct actions have distinct discriminants |
| InputAction.DefaultMapBindsAll | app/src/input_manager/action.rs:58-74 | the default map binds all five actions, to pairwise distinct triggers |
| InputAction.DefaultSlots | app/src/input_manager/action.rs:39 | sixteen default slots |
| InputAction.GetStates | app/src/input_manager/action.rs:34-55 | the loop over the map, in any order, returns the frame's state array |
| InputAction.StatesStep | app/src/input_manager/action.rs:41-51 | processing one entry sets its action's slot to just pressed if its trigger is held, and touches nothing else |
| InputAction.FrameStatesMeaning | app/src/input_manager/action.rs:34-55 | an action's slot is just pressed exactly when it is bound and its trigger held; slots 5 to 15 stay default; nothing is consumed |
| ActionState.Apply | app/src/input_manager/action_state.rs:46-51 | a requested pressed state presses the slot, a requested released state releases it |
| ActionState.UpdatedUpTo | app/src/input_manager/action_state.rs:39-53 | sixteen slots |
| ActionState.Ticked | app/src/input_manager/action_state.rs:152-158 | ticking keeps the number of slots |
| ActionState.InputActionState.constructor | app/src/input_manager/action_state.rs:30-36 | sixteen default slots |
| ActionState.InputActionState.Pressed | app/src/input_manager/action_state.rs:79-81 | pressed exactly when the action's slot is not released |
| ActionState.InputActionState.JustPressed | app/src/input_manager/action_state.rs:83-85 | just pressed implies pressed |
| ActionState.InputActionState.Released | app/src/input_manager/action_state.rs:87-89 | released exactly when not pressed |
| ActionState.InputActionState.JustReleased | app/src/input_manager/action_state.rs:91-93 | just released implies released |
| ActionState.InputActionState.Press | app/src/input_manager/action_state.rs:59-65 | only the action's own slot changes, as `PressSlot` says |
| ActionState.InputActionState.Release | app/src/input_manager/action_state.rs:67-71 | only the action's own slot changes, as `ReleaseSlot` says |
| ActionState.InputActionState.Consume | app/src/input_manager/action_state.rs:73-77 | only the action's own slot changes, as `ConsumeSlot` says, and the action then reads released |
| ActionState.InputActionState.Update | app/src/input_manager/action_state.rs:39-53 | slots 0 to 4 get the requested state applied; the loop breaks at slot 5, so slots 5 to 15 are untouched |
| ActionState.InputActionState.TickAll | app/src/input_manager/action_state.rs:152-158 | every slot's trigger is ticked, in place |
| ActionState.KeyboardInputSystem | app/src/input_manager/action_state.rs:145-161 | the frame ticks every slot, then applies the states built by `get_states` |
| ActionState.UpdateKeepsUnusedSlots | app/src/input_manager/action_state.rs:41-45 | `update` leaves slots 5 to 15 as they were |
| ActionState.FrameOutcome | app/src/input_manager/action_state.rs:145-161 | per action, per frame: held and not consumed gives a fresh or continued press; held and consumed only ticks; not held gives a release that is fresh if the action was pressed, and clears the latch |
| ActionState.FrameTicksUnusedSlots | app/src/input_manager/action_state.rs:152-161 | a frame only ticks slots 5 to 15 |
| Material.CountOnes | app/src/world_material/material.rs:95 | the population count of the lowest k bits is at most k |
| Material.ShiftIsPopcount | app/src/world_material/material.rs:93-96 | 32 minus the mask's population count is the shift, 29 |
| Material.ReservedBits | app/src/world_material/material.rs:77-81 | the reserved bits are the top three, and no texture flag falls in them |
| Material.ModeCode | app/src/world_material/material.rs:82-87 | every mode code fits in the three-bit mask |
| Material.AsBindGroupShaderType | app/src/world_material/material.rs:109-145 | the flags are the or of the present textures' flags and the mode's flag; the cutoff is the mask's own, and 0.5 otherwise |
| Material.FlagsDecode | app/src/world_material/material.rs:111-136 | each texture bit is set exactly when that texture is present; the top three bits decode to the mode code; no other bit is set |
| Material.ModeCodesDistinct | app/src/world_material/material.rs:82-87 | different alpha modes have different codes |
| Material.DefaultMaterialFlags | app/src/world_material/material.rs:45-57 | the default material's flags are `NONE`, and its cutoff is 0.5 |
| LightMesh.FanVertices | app/src/lighting/light_mesh.rs:16-26 | 1 + SIDES vertices |
| LightMesh.FanIntensities | app/src/lighting/light_mesh.rs:17-25 | 1 + SIDES intensities |
| LightMesh.LoopIndices | app/src/lighting/light_mesh.rs:28-30 | three indices per loop triangle |
| LightMesh.PushVertices | app/src/lighting/light_mesh.rs:16-26 | the centre, then the rim steps 0 to 31 in order, with intensities 1 and then 0 |
| LightMesh.PushTriangles | app/src/lighting/light_mesh.rs:28-30 | the loop pushes the triangles `[0, i, i+1]` in order |
| LightMesh.MakeLightMeshAsWritten | app/src/lighting/light_mesh.rs:8-39 | the mesh as the code builds it: the loop over `1..=SIDES`, then the closing triangle |
| LightMesh.MakeLightMesh | app/src/lighting/light_mesh.rs:8-39 | the fan with the loop over `1..SIDES`, then the closing triangle |
| LightMesh.LoopTriangle | app/src/lighting/light_mesh.rs:28-30 | loop triangle t is `[0, t+1, t+2]` |
| LightMesh.VertexAttributes | app/src/lighting/light_mesh.rs:16-26 | 33 positions and 33 intensities; the centre first with intensity 1, each rim vertex with intensity 0 |
| LightMesh.AsWrittenShape | app/src/lighting/light_mesh.rs:28-31 | as written: 99 indices, every triangle starting at the centre, ending with `[0, SIDES, 1]` |
| LightMesh.AsWrittenIndexPastLastVertex | app/src/lighting/light_mesh.rs:28-30 | as written, the last loop triangle is `[0, 32, 33]`, and index 33 equals the vertex count |
| LightMesh.FanTriangles | app/src/lighting/light_mesh.rs:28-31 | corrected: 32 triangles, triangle t joins the centre to rim vertices t+1 and the next one round, and every index is below 33 |
| AssetLoad.Pending | app/src/asset/load.rs:78-90 | never longer than the list it filters |
| AssetLoad.Ready | app/src/asset/load.rs:81-83 | never longer than the list it filters |
| AssetLoad.Reversed | app/src/asset/load.rs:75 | the same length as the original |
| AssetLoad.AssetLoadState.constructor | app/src/asset/load.rs:9-14 | the given handles are pending, and nothing is loaded |
| AssetLoad.OnLoadEnter | app/src/asset/load.rs:42-51 | four pending handles in order (tiles image, tilemap shader, light shader, world shader), none loaded |
| AssetLoad.OnLoadUpdate | app/src/asset/load.rs:66-92 | enters the game exactly when nothing is pending, and then changes nothing; otherwise the pending list keeps its non-loaded handles in order, and the loaded list gains the loaded ones last first |
| AssetLoad.SnapshotStep | app/src/asset/load.rs:74-84 | stepping back one index of the snapshot adds that handle to the front of the processed suffix |
| AssetLoad.SplitConserves | app/src/asset/load.rs:74-92 | pending and loaded split the list: the counts add up, and so do the multisets |
| AssetLoad.SplitMembers | app/src/asset/load.rs:78-90 | a handle stays pending exactly when it is not loaded, and moves across exactly when it is |
| AssetLoad.ReversedKeeps | app/src/asset/load.rs:75 | reversal keeps the elements |
| AssetLoad.ReversedIndex | app/src/asset/load.rs:75 | element k of the reversal is element `n - 1 - k` of the original |
| AssetLoad.UpdateConserves | app/src/asset/load.rs:74-92 | an update conserves the total number of handles and the handles themselves |
| AssetLoad.FailedBlocksGame | app/src/asset/load.rs:66-90 | a handle that never loads stays pending through any number of updates, so the game state is never entered |
| AssetLoad.Repeat | app/src/asset/load.rs:74-92 | repeated updates never lengthen the pending list |
| AssetLoad.AllLoadedEmpties | app/src/asset/load.rs:66-92 | when every pending handle is loaded, one update empties the list, so the next one enters the game |
| AssetLoad.PendingSettled | app/src/asset/load.rs:74-92 | a second update under the same load states moves nothing more |
| StateLoad.OnLoadEnter | app/src/state/load_state.rs:24-31 | two pending handles, the tiles image then the tilemap shader; none loaded |
| StateLoad.FirstUpdate | app/src/state/load_state.rs:58-76 | the first update moves each loaded handle across and keeps the others pending; when both load, the shader is pushed before the image |
| StateLoad.TwoHandleOutcome | app/src/state/load_state.rs:50-76 | both loaded: the pending list empties, and the next update enters the game; either one never loads: the list never empties |

## Left out

- Rendering and engine plumbing are not modelled. This covers mesh, material and bundle assembly, GPU buffers, bind groups, the ECS commands, and the `TilemapBundle` produced by `TilemapBundle::make`. Of `make`, only the fact it relies on is kept: the generated tilemap holds chunk (0, 0) (`Generator.Generate`).
- The noise generator and its random seed are foreign code. The atlas index chosen for a location is a function parameter, `Sampler`.
- Floating point is not modelled:
  - Chunk mesh positions are small whole numbers, so they are integers.
  - The division of atlas rectangles by the texture size is an abstract `normalize` function.
  - The light fan's rim positions, computed with `sin_cos`, are named by their step.
  - Colours are left out.
  - The alpha cutoff is an opaque real.
  - `get_chunk_rect` is modelled on integers. Its `i32`-to-`f32` conversion is exact only for chunk keys up to 2^24 in magnitude, which means global coordinates below about 2^29. Rounding for larger keys is not modelled.
- Hash-map and B-tree iteration order is not modelled:
  - `get_states` visits the binding map in any order (`Common.PickKey`), and its result does not depend on the order.
  - `get_chunk_rect` visits columns in any order, and its result does not depend on the order.
- Key and mouse input is not modelled as devices. Whether an input is held is a set of held keys and a set of held buttons.
- The asset server is a function from handle to load state, fixed for one update. Loading itself, handle typing, the image-sampler change and the texture atlas are not modelled.
- The check timer, which is never ticked, is not modelled. Neither is the progress line printed after each update.
- `Material.AlphaModeShiftBits` is written as the literal 29. `ShiftIsPopcount` proves that it equals the source's `32 - count_ones(0b111)`.
- `WorldMaterialFlags::UNINITIALIZED` (0xFFFF) is not modelled, because no modelled operation uses it.
- `ChunkData::get_tile`, `ChunkData::set_tile` and `ChunkData::tile_index` are not modelled separately. Each only unpacks a `UVec2` and calls `get_tile_at`, `set_tile_at` or `tile_index_at`.
- `usize`, `u32` and `u16` overflow does not arise: every index stays far below the limits.
- The generator passes its `u16` id straight to `TileData::new`, which is declared with a `usize` parameter; the source writes no conversion. The model keeps the sample as a `u16` range type (`Common.u16`) and widens it to the atlas index, which is exact.
- The two loading modules have separate `AssetLoadState` structs with identical fields and identical `on_load_update` code. The model defines them once, in `AssetLoad`, and `StateLoad` reuses them with its own `on_load_enter`.

## Findings

| source | as written | input that shows it | evidently intended | confidence | as-written member | corrected member |
|---|---|---|---|---|---|---|
| app/src/lighting/light_mesh.rs:28-30 | the index loop runs over `1..=SIDES` and emits `[0, i, i+1]`, so besides the closing triangle it emits `[0, 32, 33]` | none needed: the mesh is constant; triangle 31 is `[0, 32, 33]`, and there are only 33 vertices (0 to 32) | the loop runs over `1..SIDES`, and the closing triangle `[0, SIDES, 1]` alone wraps round, so 32 triangles use only vertices 0 to 32 | not executed | LightMesh.AsWrittenIndexPastLastVertex | LightMesh.FanTriangles |
