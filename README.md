# pearl voxel core in Dafny

A model of the voxel world at the heart of the `pearl` game. It has four parts:

- **Block registry** (`registry.dfy`, module `Registries`). An append-only table that interns names. It hands out dense ids 0, 1, 2, … in registration order. It keeps a name→id map and two id-indexed vectors (names, items) in lock-step.
- **Blocks and chunks** (`world.dfy`, module `World`). A `Block` has one property, `air`. A `Chunk` is a fixed 32×32×32 grid of block ids indexed `[x][y][z]`, and `Chunk::filled` builds a uniform chunk.
- **Terrain generation** (`worldgen.rs` → `worldgen.dfy`, module `Worldgen`). The default generator resolves the ids of `default:air` and `default:dirt` from the registry. It fills a chunk cell by cell: dirt below sea level (height 0), air above it. Height is `j + 32·pos.y`.
- **Meshing** (`mesh.rs` → `cube.dfy`, module `Cube`, and `chunk_mesh.dfy`, module `ChunkMesh`):
  - `generate_cube` appends the 36 vertices (6 faces × 2 triangles) of a unit cube, built from fixed corner, face, texture-coordinate and normal tables.
  - `generate_chunk` walks every cell, x outermost and z innermost. For each cell it resolves the six neighbours, crossing into one of six adjacent chunks at the border.
  - It appends a whole cube for every solid cell with at least one air neighbour.

Shared pieces: `options.dfy` holds `Option`, and `vectors.dfy` holds an integer `Vec3` in place of nalgebra's `Vector3`.

Each source file keeps its own form:
- The registry is a class whose `Register` method updates its fields.
- Terrain generation is a method with the source's triple loop. It is proved equal to a pure function, `Terrain`.
- `generate_cube` is a method with the source's face and vertex loops. It is proved to append `Vertices(offset)`.
- `generate_chunk` is the source's loop nest, with the neighbour lookup written as the source's six sequential `if`s.
  - The neighbour lookup is proved equal to a reference definition, `MeshInput.NeighbourId`: step in direction `ADJACENCY[side]`; if that leaves the chunk, read the adjacent chunk on that side at the coordinate taken modulo 32.
  - The whole loop nest is proved to produce `Mesh`. `RenderGrid` marks the cells that render. `Walk` lists the marked cells in the loops' order (x outermost, z innermost). `Mesh` is the concatenation of the cubes at those positions (`Cubes`).
  - The source's three nested loops are three methods, one per loop (`GenerateChunk`, `MeshSlice`, `MeshRow`), plus `MeshCell` for the loop body. Each carries the invariant that its output is `Cubes` of the walk so far.

The mesher is modelled as written. It ORs the six "neighbour is air" tests into one `should_render` flag and then emits the full cube. It does not cull face by face. The model follows the code.

The comment above `FACES` (pearl/src/mesh.rs:19) gives the face order as "x = 0, x = 1, …". The rows themselves, and `NORMALS`, run +x, −x, +y, −y, +z, −z. The model uses the rows as written.

## Model

| member | source | states |
|---|---|---|
| `Registries.Registry.constructor` | pearl/src/registry.rs:11-17 | A new registry is empty: no names, no items, and every name looks up to `None`. |
| `Registries.Registry.Register` | pearl/src/registry.rs:20-34 | Needs a name not yet registered; the source panics on a duplicate. The new id is the previous number of registrations. The name and the item are appended to their vectors, and the map gains `name ↦ id`. Afterwards `GetItemId(name) == Some(id)` and `GetItem(id) == item`. Every other name resolves as before, and the lock-step invariant is kept. |
| `Registries.Registry.GetItem` | pearl/src/registry.rs:36-40 | Defined only for an issued id, since the source panics otherwise. It returns the item stored at that id. |
| `Registries.Registry.GetItemId` | pearl/src/registry.rs:42-49 | The map lookup returns `Some` exactly when the name was registered. The id it gives is the position of that name in the registration order. |
| `Registries.NamesDistinct` | pearl/src/registry.rs:25-31 | Two ids carry the same name only if they are the same id: the duplicate check keeps names unique. |
| `Registries.IdNameRoundTrip` | pearl/src/registry.rs:28-31 | Looking up the name registered under an id gives that id back. |
| `World.Chunk.Set` | pearl/src/worldgen.rs:40 | Overwriting one cell keeps the 32³ shape. It changes that cell to the new id and leaves every other cell as it was. |
| `World.Filled` | pearl/src/world.rs:12-16 | `Chunk::filled(id)` has the 32×32×32 shape, and every cell holds `id`. |
| `World.FilledInjective` | pearl/src/world.rs:12-16 | Two filled chunks are equal exactly when their ids are equal. |
| `World.UniformIsFilled` | pearl/src/world.rs:12-16 | Any well-shaped chunk whose every cell holds `id` is `Chunk::filled(id)`. |
| `Worldgen.Terrain` | pearl/src/worldgen.rs:31-42 | The generated chunk has the 32³ shape. Cell `[i][j][k]` is dirt when `j + 32·pos.y < SEA_LEVEL`, and air otherwise. |
| `Worldgen.ChunkGenerator.New` | pearl/src/worldgen.rs:17-26 | Needs both `default:air` and `default:dirt` registered; the source unwraps. The stored ids are the ids registered under those two names, and the two ids differ. |
| `Worldgen.ChunkGenerator.GenerateChunk` | pearl/src/worldgen.rs:29-45 | The triple loop, starting from `filled(air)` and overwriting cells in place, returns exactly `Terrain` at `pos`. The generator's fields are untouched. |
| `Worldgen.TerrainIgnoresXZ` | pearl/src/worldgen.rs:33 | Two positions with the same `y` generate the same chunk, whatever their `x` and `z`. |
| `Worldgen.AboveSeaLevelIsAir` | pearl/src/worldgen.rs:33-38 | A chunk at `pos.y >= 0` is all air, i.e. `filled(air)`. |
| `Worldgen.BelowSeaLevelIsDirt` | pearl/src/worldgen.rs:33-38 | A chunk at `pos.y <= -1` is all dirt, i.e. `filled(dirt)`. |
| `Worldgen.TerrainLayered` | pearl/src/worldgen.rs:31-42 | Every cell holds either the air id or the dirt id. All cells of one `j` layer hold the same id. |
| `Worldgen.DirtBelowAir` | pearl/src/worldgen.rs:33-38 | If a layer is dirt, every lower layer of the same column is dirt too. |
| `Cube.FaceRunAt` | pearl/src/mesh.rs:61-65 | After the vertex loop of face `f` has run `n` times, entry `v` holds vertex `v` of face `f`. |
| `Cube.FacesAt` | pearl/src/mesh.rs:59-66 | After the face loop has run `n` times, entry `6f+v` holds vertex `v` of face `f`. |
| `Cube.GenerateCube` | pearl/src/mesh.rs:57-68 | The face and vertex loops append exactly the cube at `offset` to `dest`. Earlier contents are unchanged. |
| `Cube.VertexLayout` | pearl/src/mesh.rs:59-65 | The cube has 36 vertices. Vertex `6f+v` has position `VERTICES[FACES[f][v]] + offset`, normal `NORMALS[f]` and texture coordinate `TEXTURE_COORDINATES[v]`. |
| `Cube.NormalsDistinctUnitAxes` | pearl/src/mesh.rs:45-53 | Every normal is an axis-aligned unit vector, and the six faces have six different normals. |
| `Cube.NormalCount` | pearl/src/mesh.rs:59-65 | Vertex `n` carries face `f`'s normal exactly when `6f <= n < 6f+6`. |
| `Cube.FaceOnItsSide` | pearl/src/mesh.rs:6-53 | Every corner of face `f` lies on the cube side that `NORMALS[f]` points out of. For example, the +x face uses only corners with x = 1. |
| `Cube.SharedDiagonal` | pearl/src/mesh.rs:17-43 | In every face, vertex 4 repeats vertex 0 and vertex 3 repeats vertex 1. The two triangles therefore share their first edge, the diagonal. A repeated corner gets the same texture coordinate. |
| `Cube.TrianglesNonDegenerate` | pearl/src/mesh.rs:17-33 | Each triangle of a face has three distinct corners. The second triangle's last corner is not a corner of the first triangle. |
| `ChunkMesh.Wrap` | pearl/src/mesh.rs:109-131 | A coordinate at most one chunk outside the grid is brought back into `[0, 32)`, and the result is the coordinate modulo 32. |
| `ChunkMesh.ResolveNeighbour` | pearl/src/mesh.rs:103-134 | The six sequential `if`s, which rebind the coordinate and the chunk, read exactly the block id of the reference lookup `NeighbourId`. |
| `ChunkMesh.NeighbourResolution` | pearl/src/mesh.rs:103-134 | A step to 32 reads cell 0 of adjacent chunk 0, 2 or 4 (for x, y, z). A step to −1 reads cell 31 of adjacent chunk 1, 3 or 5. Any other step reads the chunk itself. |
| `ChunkMesh.ShouldRender` | pearl/src/mesh.rs:101-137 | The accumulated `should_render` flag is true exactly when some one of the six resolved neighbours is air. |
| `ChunkMesh.MeshCell` | pearl/src/mesh.rs:101-145 | One cell's work appends its whole cube at `(x, y, z)` exactly when the cell is solid and its flag is set, and appends nothing otherwise. |
| `ChunkMesh.GenerateChunk` | pearl/src/mesh.rs:90-150 | Needs six adjacent chunks, and needs every id it looks up to be a registry id (`get_item`). The loop nest returns `Mesh`: the cubes of the rendered cells, x outermost, z innermost. |
| `ChunkMesh.MeshRow` | pearl/src/mesh.rs:100-147 | The innermost loop over `z` appends the cubes of the rendering cells of row `(x, y)`, in order, to the walk's output so far. |
| `ChunkMesh.MeshSlice` | pearl/src/mesh.rs:99-148 | The middle loop over `y` appends the cubes of the rendering cells of slice `x`, in order, to the walk's output so far. |
| `ChunkMesh.CubesAppend` | pearl/src/mesh.rs:140-145 | Appending one more cell position to the walk appends that cell's cube to the output. |
| `ChunkMesh.WalkCellStep` | pearl/src/mesh.rs:101-145 | Visiting cell `(x, y, z)` extends the output by the cell's cube if the cell renders, and by nothing otherwise. |
| `ChunkMesh.WalkMembers` | pearl/src/mesh.rs:98-148 | At any point of the walk, a position has been emitted exactly when it is a chunk cell, lies before that point in x-y-z order, and renders. |
| `ChunkMesh.WalkSingle` | pearl/src/mesh.rs:98-148 | When only cell `p` renders, the walk has emitted `[p]` once it has passed `p`, and nothing before that. |
| `ChunkMesh.DrawnCells` | pearl/src/mesh.rs:98-149 | A cell is drawn (its cube is in the mesh) exactly when it is a chunk cell that renders. |
| `ChunkMesh.MeshEmptyIff` | pearl/src/mesh.rs:98-149 | The mesh is empty exactly when no cell renders. |
| `ChunkMesh.CubesAt` | pearl/src/mesh.rs:140-145 | In the cubes of a list of positions, index `36i+k` holds vertex `k` of the cube at the `i`-th position. |
| `ChunkMesh.WalkSorted` | pearl/src/mesh.rs:98-148 | The walk emits positions in strictly increasing x-y-z order (x outermost, z innermost), so no position twice. |
| `ChunkMesh.DrawnOrder` | pearl/src/mesh.rs:98-149 | The drawn cells are exactly the set of rendering cells, in increasing x-y-z order. There are as many drawn cells as rendering cells. |
| `ChunkMesh.MeshLayout` | pearl/src/mesh.rs:98-149 | The mesh length is 36 times the number of drawn cells, so a multiple of 36. Index `36i+k` holds vertex `k` of the `i`-th drawn cell's cube. With `DrawnOrder`, that is 36 vertices per rendering cell. |
| `ChunkMesh.AllAirMeshesEmpty` | pearl/src/mesh.rs:138-145 | An all-air chunk meshes to nothing, whatever its neighbours hold. |
| `ChunkMesh.EnclosedSolidMeshesEmpty` | pearl/src/mesh.rs:101-145 | A chunk filled with one solid block and surrounded by six chunks filled with it meshes to nothing. |
| `ChunkMesh.EnclosedCellHidden` | pearl/src/mesh.rs:101-137 | In a solid-filled chunk with six solid-filled neighbours, no cell's `should_render` flag is set. |
| `ChunkMesh.LoneSolidBlock` | pearl/src/mesh.rs:98-149 | A single solid block in an otherwise air chunk meshes to exactly its own cube at its position, whatever the adjacent chunks hold. |

## Left out

- Panics are modelled as preconditions. This covers a duplicate `register`, `get_item` with an id never issued, the two `unwrap`s in `ChunkGenerator::new`, and the `assert!` on six adjacent chunks.
- `Registries.Registry.Register`: the `HashMap` is a Dafny `map`. Hashing, capacity and the `Into<String>` conversion are not modelled.
- `Worldgen.ChunkGenerator.GenerateChunk`: `j + pos.y * 32` is computed on unbounded integers. The `isize` overflow that a huge `pos.y` would cause (a panic in debug builds, wrap-around in release builds) is not modelled.
- `Worldgen.ChunkGenerator.GenerateChunk`: `&mut self` is dropped. The generator is an immutable value, so its two ids visibly stay unchanged.
- `Cube.GenerateCube`: the caller's `&mut Vec` is passed in and returned as a value, so aliasing of `dest` is not modelled. `dest.reserve` only changes capacity and is left out.
- Vertex data (positions, normals, texture coordinates) are integers instead of `f32`. Every value the source produces is a small exact integer, and cell coordinates become float offsets without rounding.
- `Cube`: the counter-clockwise winding of each triangle (the orientation of its normal against the cross product of its edges) is not stated as a lemma. The model proves only that each face's corners lie on the correct side and that its triangles are non-degenerate.
- `ChunkMesh.GenerateChunk`: the chunk, its neighbours and the registry are passed as values and are never written, so "nothing is modified" holds by construction rather than as a stated frame.
- `Block` carries only the `air` field, the only one the source declares.
- Camera control (`exploration_camera`), game-state setup and asset loading (`pearl.rs`, `src/pearl.rs`), and application bootstrap (`main.rs`) are engine plumbing and float trigonometry; they are not part of this model.
