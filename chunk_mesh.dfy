/**
 * Chunk meshing (module `chunk` of pearl/src/mesh.rs): every non-air cell
 * with at least one air neighbour contributes a whole cube. Neighbours
 * across the chunk border are read from the six adjacent chunks.
 */
module ChunkMesh {
  import opened Vectors
  import opened World
  import opened Registries
  import Cube

  /** The six unit steps, in the order +x, -x, +y, -y, +z, -z; the adjacent
      chunks are passed in the same order. */
  const ADJACENCY: seq<Vec3> := [
    Vec3(1, 0, 0),
    Vec3(-1, 0, 0),
    Vec3(0, 1, 0),
    Vec3(0, -1, 0),
    Vec3(0, 0, 1),
    Vec3(0, 0, -1)
  ]

  predicate IsSide(side: int) {
    0 <= side < 6
  }

  predicate InCell(x: int, y: int, z: int) {
    InChunk(x) && InChunk(y) && InChunk(z)
  }

  /** A coordinate at most one chunk outside [0, CHUNK_SIZE), moved back into it
      (the coordinate modulo CHUNK_SIZE). */
  function Wrap(i: int): (r: int)
    requires -(CHUNK_SIZE as int) <= i < 2 * CHUNK_SIZE
    ensures InChunk(r)
    ensures r == i % CHUNK_SIZE
  {
    if i < 0 then i + CHUNK_SIZE else if i >= CHUNK_SIZE then i - CHUNK_SIZE else i
  }

  /** What the mesher reads: a chunk, its six neighbours in ADJACENCY order,
      and the registry's block table. */
  datatype MeshInput = MeshInput(chunk: Chunk, adjacent: seq<Chunk>, blocks: seq<Block>) {
    ghost predicate WellShaped() {
      chunk.Valid() && |adjacent| == 6 && forall side :: IsSide(side) ==> adjacent[side].Valid()
    }

    /** The block id found one step from cell (x, y, z) in direction `side`:
        inside this chunk when the step stays inside, otherwise in the adjacent
        chunk on that side, at the coordinate moved back into [0, CHUNK_SIZE). */
    function NeighbourId(x: int, y: int, z: int, side: int): BlockId
      requires WellShaped() && InCell(x, y, z) && IsSide(side)
    {
      var n := Vec3(x, y, z).Add(ADJACENCY[side]);
      if InCell(n.x, n.y, n.z) then chunk.At(n.x, n.y, n.z)
      else adjacent[side].At(Wrap(n.x), Wrap(n.y), Wrap(n.z))
    }

    /** Every id the mesher looks up is one the registry issued (`get_item` panics otherwise). */
    ghost predicate Valid() {
      && WellShaped()
      && (forall x, y, z :: InCell(x, y, z) ==> chunk.At(x, y, z) < |blocks|)
      && (forall x, y, z, side :: InCell(x, y, z) && IsSide(side) ==> NeighbourId(x, y, z, side) < |blocks|)
    }

    predicate CellIsAir(x: int, y: int, z: int)
      requires Valid() && InCell(x, y, z)
    {
      blocks[chunk.At(x, y, z)].air
    }

    predicate NeighbourIsAir(x: int, y: int, z: int, side: int)
      requires Valid() && InCell(x, y, z) && IsSide(side)
    {
      blocks[NeighbourId(x, y, z, side)].air
    }

    /** The source's shared flag: the OR of the six "neighbour is air" tests. */
    predicate ShouldRender(x: int, y: int, z: int)
      requires Valid() && InCell(x, y, z)
    {
      NeighbourIsAir(x, y, z, 0) || NeighbourIsAir(x, y, z, 1) || NeighbourIsAir(x, y, z, 2) ||
      NeighbourIsAir(x, y, z, 3) || NeighbourIsAir(x, y, z, 4) || NeighbourIsAir(x, y, z, 5)
    }

    /** A cell is drawn when it is solid and some neighbour is air. */
    predicate Renders(x: int, y: int, z: int)
      requires Valid() && InCell(x, y, z)
    {
      !CellIsAir(x, y, z) && ShouldRender(x, y, z)
    }
  }

  /** What cell (x, y, z) contributes: the whole cube at its position, or nothing. */
  ghost function CellMesh(m: MeshInput, x: int, y: int, z: int): seq<Cube.Vertex>
    requires m.Valid() && InCell(x, y, z)
  {
    if m.Renders(x, y, z) then Cube.Vertices(Vec3(x, y, z)) else []
  }

  /** A CHUNK_SIZE x CHUNK_SIZE x CHUNK_SIZE grid of flags, indexed [x][y][z]. */
  ghost predicate GridShaped(g: seq<seq<seq<bool>>>) {
    && |g| == CHUNK_SIZE
    && (forall x :: 0 <= x < CHUNK_SIZE ==> |g[x]| == CHUNK_SIZE)
    && (forall x, y :: 0 <= x < CHUNK_SIZE && 0 <= y < CHUNK_SIZE ==> |g[x][y]| == CHUNK_SIZE)
  }

  /** Which cells of the chunk are drawn. */
  ghost function RenderGrid(m: MeshInput): (g: seq<seq<seq<bool>>>)
    requires m.Valid()
    ensures GridShaped(g)
  {
    seq(CHUNK_SIZE, x requires 0 <= x < CHUNK_SIZE =>
      seq(CHUNK_SIZE, y requires 0 <= y < CHUNK_SIZE =>
        seq(CHUNK_SIZE, z requires 0 <= z < CHUNK_SIZE => m.Renders(x, y, z))))
  }

  /** The grid marks a cell exactly when that cell renders. */
  lemma RenderGridAt(m: MeshInput, x: int, y: int, z: int)
    requires m.Valid() && InCell(x, y, z)
    ensures RenderGrid(m)[x][y][z] == m.Renders(x, y, z)
  {
  }

  /** Where the walk over the cells can stand: at (x, y, z) with the inner
      coordinates back at 0 once an outer one has run past the chunk. */
  predicate WalkPosition(x: int, y: int, z: int) {
    && 0 <= x <= CHUNK_SIZE && 0 <= y <= CHUNK_SIZE && 0 <= z <= CHUNK_SIZE
    && (x == CHUNK_SIZE ==> y == 0 && z == 0)
    && (y == CHUNK_SIZE ==> z == 0)
  }

  /** The positions of the cells the grid marks, in the order the walk meets them
      (x outermost, then y, then z innermost), up to (x, y, z). */
  ghost function Walk(g: seq<seq<seq<bool>>>, x: int, y: int, z: int): seq<Vec3>
    requires GridShaped(g) && WalkPosition(x, y, z)
    decreases x, y, z
  {
    if z > 0 then Walk(g, x, y, z - 1) + (if g[x][y][z - 1] then [Vec3(x, y, z - 1)] else [])
    else if y > 0 then Walk(g, x, y - 1, CHUNK_SIZE)
    else if x > 0 then Walk(g, x - 1, CHUNK_SIZE, 0)
    else []
  }

  /** The cubes at the given cell positions, one after another. */
  ghost function Cubes(ps: seq<Vec3>): (r: seq<Cube.Vertex>)
    ensures |r| == Cube.TOTAL_VERTEX_COUNT * |ps|
  {
    if ps == [] then [] else Cubes(ps[..|ps| - 1]) + Cube.Vertices(ps[|ps| - 1])
  }

  /** The cells of a chunk that are drawn, in walk order. */
  ghost function Drawn(m: MeshInput): seq<Vec3>
    requires m.Valid()
  {
    Walk(RenderGrid(m), CHUNK_SIZE, 0, 0)
  }

  /** The mesh of a chunk: the cubes of its drawn cells, in walk order. */
  ghost function Mesh(m: MeshInput): seq<Cube.Vertex>
    requires m.Valid()
  {
    Cubes(Drawn(m))
  }

  /** The step of each side, by cases. */
  lemma AdjacencyCases(side: int)
    requires IsSide(side)
    ensures side == 0 ==> ADJACENCY[side] == Vec3(1, 0, 0)
    ensures side == 1 ==> ADJACENCY[side] == Vec3(-1, 0, 0)
    ensures side == 2 ==> ADJACENCY[side] == Vec3(0, 1, 0)
    ensures side == 3 ==> ADJACENCY[side] == Vec3(0, -1, 0)
    ensures side == 4 ==> ADJACENCY[side] == Vec3(0, 0, 1)
    ensures side == 5 ==> ADJACENCY[side] == Vec3(0, 0, -1)
  {
  }

  /** The neighbour lookup of `generate_chunk` for one side, as written: step, then
      rebind the coordinate and the chunk read from whenever the coordinate reaches
      CHUNK_SIZE or -1. It reads the block the reference lookup names. */
  method ResolveNeighbour(chunk: Chunk, adjacentChunks: seq<Chunk>, ghost blocks: seq<Block>,
                          x: int, y: int, z: int, side: int) returns (blockId: BlockId)
    requires MeshInput(chunk, adjacentChunks, blocks).WellShaped()
    requires InCell(x, y, z) && IsSide(side)
    ensures blockId == MeshInput(chunk, adjacentChunks, blocks).NeighbourId(x, y, z, side)
  {
    AdjacencyCases(side);
    var source := chunk;
    var nx := x + ADJACENCY[side].x;
    var ny := y + ADJACENCY[side].y;
    var nz := z + ADJACENCY[side].z;
    if nx == CHUNK_SIZE {
      nx := nx - CHUNK_SIZE;
      source := adjacentChunks[0];
    }
    if nx == -1 {
      nx := nx + CHUNK_SIZE;
      source := adjacentChunks[1];
    }
    if ny == CHUNK_SIZE {
      ny := ny - CHUNK_SIZE;
      source := adjacentChunks[2];
    }
    if ny == -1 {
      ny := ny + CHUNK_SIZE;
      source := adjacentChunks[3];
    }
    if nz == CHUNK_SIZE {
      nz := nz - CHUNK_SIZE;
      source := adjacentChunks[4];
    }
    if nz == -1 {
      nz := nz + CHUNK_SIZE;
      source := adjacentChunks[5];
    }
    blockId := source.blocks[nx][ny][nz];
  }

  /** The `should_render` flag of `generate_chunk` for one cell: the OR of the six
      "neighbour is air" tests. */
  method ShouldRender(chunk: Chunk, adjacentChunks: seq<Chunk>, registry: Registry<Block>,
                      x: int, y: int, z: int) returns (shouldRender: bool)
    requires MeshInput(chunk, adjacentChunks, registry.itemsById).Valid()
    requires InCell(x, y, z)
    ensures shouldRender == MeshInput(chunk, adjacentChunks, registry.itemsById).ShouldRender(x, y, z)
  {
    ghost var m := MeshInput(chunk, adjacentChunks, registry.itemsById);
    shouldRender := false;
    for side := 0 to 6
      invariant shouldRender <==> exists s :: 0 <= s < side && m.NeighbourIsAir(x, y, z, s)
    {
      var blockId := ResolveNeighbour(chunk, adjacentChunks, registry.itemsById, x, y, z, side);
      assert blockId < |registry.itemsById|;
      var block := registry.GetItem(blockId);
      assert block.air == m.NeighbourIsAir(x, y, z, side);
      shouldRender := shouldRender || block.air;
    }
  }

  /** The body of `generate_chunk`'s innermost loop: appends the cube of cell (x, y, z)
      when the cell is solid and its shared flag is set. */
  method MeshCell(chunk: Chunk, adjacentChunks: seq<Chunk>, registry: Registry<Block>,
                  x: int, y: int, z: int, output: seq<Cube.Vertex>) returns (extended: seq<Cube.Vertex>)
    requires MeshInput(chunk, adjacentChunks, registry.itemsById).Valid()
    requires InCell(x, y, z)
    ensures extended == output + CellMesh(MeshInput(chunk, adjacentChunks, registry.itemsById), x, y, z)
  {
    ghost var m := MeshInput(chunk, adjacentChunks, registry.itemsById);
    extended := output;
    var shouldRender := ShouldRender(chunk, adjacentChunks, registry, x, y, z);
    var blockId := chunk.blocks[x][y][z];
    assert blockId == chunk.At(x, y, z) < |registry.itemsById|;
    var block := registry.GetItem(blockId);
    if !block.air && shouldRender {
      extended := Cube.GenerateCube(Vec3(x, y, z), extended);
    }
  }

  /** `generate_chunk`'s innermost loop: the cells (x, y, 0) .. (x, y, CHUNK_SIZE - 1),
      appended to the output of the walk so far. */
  method MeshRow(chunk: Chunk, adjacentChunks: seq<Chunk>, registry: Registry<Block>,
                 ghost g: seq<seq<seq<bool>>>, x: int, y: int, output: seq<Cube.Vertex>)
    returns (extended: seq<Cube.Vertex>)
    requires MeshInput(chunk, adjacentChunks, registry.itemsById).Valid()
    requires g == RenderGrid(MeshInput(chunk, adjacentChunks, registry.itemsById))
    requires InChunk(x) && InChunk(y)
    requires output == Cubes(Walk(g, x, y, 0))
    ensures extended == Cubes(Walk(g, x, y + 1, 0))
  {
    ghost var m := MeshInput(chunk, adjacentChunks, registry.itemsById);
    extended := output;
    for z := 0 to CHUNK_SIZE
      invariant extended == Cubes(Walk(g, x, y, z))
    {
      extended := MeshCell(chunk, adjacentChunks, registry, x, y, z, extended);
      RenderGridAt(m, x, y, z);
      WalkCellStep(g, x, y, z);
    }
  }

  /** `generate_chunk`'s middle loop: the rows (x, 0) .. (x, CHUNK_SIZE - 1),
      appended to the output of the walk so far. */
  method MeshSlice(chunk: Chunk, adjacentChunks: seq<Chunk>, registry: Registry<Block>,
                   ghost g: seq<seq<seq<bool>>>, x: int, output: seq<Cube.Vertex>)
    returns (extended: seq<Cube.Vertex>)
    requires MeshInput(chunk, adjacentChunks, registry.itemsById).Valid()
    requires g == RenderGrid(MeshInput(chunk, adjacentChunks, registry.itemsById))
    requires InChunk(x)
    requires output == Cubes(Walk(g, x, 0, 0))
    ensures extended == Cubes(Walk(g, x + 1, 0, 0))
  {
    extended := output;
    for y := 0 to CHUNK_SIZE
      invariant extended == Cubes(Walk(g, x, y, 0))
    {
      extended := MeshRow(chunk, adjacentChunks, registry, g, x, y, extended);
    }
  }

  /** `generate_chunk`: walks every cell, x outermost and z innermost, and appends a
      whole cube for every solid cell whose shared flag is set. */
  method GenerateChunk(chunk: Chunk, adjacentChunks: seq<Chunk>, registry: Registry<Block>) returns (output: seq<Cube.Vertex>)
    requires |adjacentChunks| == 6
    requires MeshInput(chunk, adjacentChunks, registry.itemsById).Valid()
    ensures output == Mesh(MeshInput(chunk, adjacentChunks, registry.itemsById))
  {
    ghost var g := RenderGrid(MeshInput(chunk, adjacentChunks, registry.itemsById));
    output := [];
    for x := 0 to CHUNK_SIZE
      invariant output == Cubes(Walk(g, x, 0, 0))
    {
      output := MeshSlice(chunk, adjacentChunks, registry, g, x, output);
    }
  }

  /** Where a neighbour read lands: one step past the +x border it is cell (0, y, z)
      of adjacent chunk 0, one step past the -x border cell (31, y, z) of adjacent
      chunk 1, and likewise for y (chunks 2, 3) and z (chunks 4, 5); a step that
      stays inside reads this chunk. */
  lemma NeighbourResolution(m: MeshInput, x: int, y: int, z: int, side: int)
    requires m.WellShaped() && InCell(x, y, z) && IsSide(side)
    ensures side == 0 ==> (m.NeighbourId(x, y, z, side) ==
      if x == CHUNK_SIZE - 1 then m.adjacent[0].At(0, y, z) else m.chunk.At(x + 1, y, z))
    ensures side == 1 ==> (m.NeighbourId(x, y, z, side) ==
      if x == 0 then m.adjacent[1].At(CHUNK_SIZE - 1, y, z) else m.chunk.At(x - 1, y, z))
    ensures side == 2 ==> (m.NeighbourId(x, y, z, side) ==
      if y == CHUNK_SIZE - 1 then m.adjacent[2].At(x, 0, z) else m.chunk.At(x, y + 1, z))
    ensures side == 3 ==> (m.NeighbourId(x, y, z, side) ==
      if y == 0 then m.adjacent[3].At(x, CHUNK_SIZE - 1, z) else m.chunk.At(x, y - 1, z))
    ensures side == 4 ==> (m.NeighbourId(x, y, z, side) ==
      if z == CHUNK_SIZE - 1 then m.adjacent[4].At(x, y, 0) else m.chunk.At(x, y, z + 1))
    ensures side == 5 ==> (m.NeighbourId(x, y, z, side) ==
      if z == 0 then m.adjacent[5].At(x, y, CHUNK_SIZE - 1) else m.chunk.At(x, y, z - 1))
  {
    if side == 0 {
      NeighbourPlusX(m, x, y, z);
    } else if side == 1 {
      NeighbourMinusX(m, x, y, z);
    } else if side == 2 {
      NeighbourPlusY(m, x, y, z);
    } else if side == 3 {
      NeighbourMinusY(m, x, y, z);
    } else if side == 4 {
      NeighbourPlusZ(m, x, y, z);
    } else if side == 5 {
      NeighbourMinusZ(m, x, y, z);
    }
  }

  lemma NeighbourPlusX(m: MeshInput, x: int, y: int, z: int)
    requires m.WellShaped() && InCell(x, y, z)
    ensures m.NeighbourId(x, y, z, 0) == if x == CHUNK_SIZE - 1 then m.adjacent[0].At(0, y, z) else m.chunk.At(x + 1, y, z)
  {
    assert ADJACENCY[0] == Vec3(1, 0, 0);
  }

  lemma NeighbourMinusX(m: MeshInput, x: int, y: int, z: int)
    requires m.WellShaped() && InCell(x, y, z)
    ensures m.NeighbourId(x, y, z, 1) == if x == 0 then m.adjacent[1].At(CHUNK_SIZE - 1, y, z) else m.chunk.At(x - 1, y, z)
  {
    assert ADJACENCY[1] == Vec3(-1, 0, 0);
  }

  lemma NeighbourPlusY(m: MeshInput, x: int, y: int, z: int)
    requires m.WellShaped() && InCell(x, y, z)
    ensures m.NeighbourId(x, y, z, 2) == if y == CHUNK_SIZE - 1 then m.adjacent[2].At(x, 0, z) else m.chunk.At(x, y + 1, z)
  {
    assert ADJACENCY[2] == Vec3(0, 1, 0);
  }

  lemma NeighbourMinusY(m: MeshInput, x: int, y: int, z: int)
    requires m.WellShaped() && InCell(x, y, z)
    ensures m.NeighbourId(x, y, z, 3) == if y == 0 then m.adjacent[3].At(x, CHUNK_SIZE - 1, z) else m.chunk.At(x, y - 1, z)
  {
    assert ADJACENCY[3] == Vec3(0, -1, 0);
  }

  lemma NeighbourPlusZ(m: MeshInput, x: int, y: int, z: int)
    requires m.WellShaped() && InCell(x, y, z)
    ensures m.NeighbourId(x, y, z, 4) == if z == CHUNK_SIZE - 1 then m.adjacent[4].At(x, y, 0) else m.chunk.At(x, y, z + 1)
  {
    assert ADJACENCY[4] == Vec3(0, 0, 1);
  }

  lemma NeighbourMinusZ(m: MeshInput, x: int, y: int, z: int)
    requires m.WellShaped() && InCell(x, y, z)
    ensures m.NeighbourId(x, y, z, 5) == if z == 0 then m.adjacent[5].At(x, y, CHUNK_SIZE - 1) else m.chunk.At(x, y, z - 1)
  {
    assert ADJACENCY[5] == Vec3(0, 0, -1);
  }

  /** Cell (a, b, c) is visited before the walk reaches (x, y, z). */
  predicate Precedes(a: int, b: int, c: int, x: int, y: int, z: int) {
    a < x || (a == x && b < y) || (a == x && b == y && c < z)
  }

  /** Appending one position appends its cube. */
  lemma CubesAppend(ps: seq<Vec3>, p: Vec3)
    ensures Cubes(ps + [p]) == Cubes(ps) + Cube.Vertices(p)
  {
    assert (ps + [p])[..|ps|] == ps;
  }

  /** The walk's step past cell (x, y, z), seen on the cubes: the cell's own contribution is appended. */
  lemma WalkCellStep(g: seq<seq<seq<bool>>>, x: int, y: int, z: int)
    requires GridShaped(g) && InCell(x, y, z)
    ensures Cubes(Walk(g, x, y, z + 1)) ==
      Cubes(Walk(g, x, y, z)) + (if g[x][y][z] then Cube.Vertices(Vec3(x, y, z)) else [])
  {
    if g[x][y][z] {
      CubesAppend(Walk(g, x, y, z), Vec3(x, y, z));
    } else {
      assert Walk(g, x, y, z + 1) == Walk(g, x, y, z);
    }
  }

  /** One cell's step of WalkMembers. */
  lemma MembersCellStep(g: seq<seq<seq<bool>>>, x: int, y: int, z: int, p: Vec3)
    requires GridShaped(g) && InCell(x, y, z)
    requires p in Walk(g, x, y, z) <==> InCell(p.x, p.y, p.z) && Precedes(p.x, p.y, p.z, x, y, z) && g[p.x][p.y][p.z]
    ensures p in Walk(g, x, y, z + 1) <==> InCell(p.x, p.y, p.z) && Precedes(p.x, p.y, p.z, x, y, z + 1) && g[p.x][p.y][p.z]
  {
    assert Walk(g, x, y, z + 1) == Walk(g, x, y, z) + (if g[x][y][z] then [Vec3(x, y, z)] else []);
  }

  /** The walk up to (x, y, z) holds exactly the marked cells before (x, y, z). */
  lemma {:induction false} WalkMembers(g: seq<seq<seq<bool>>>, x: int, y: int, z: int, p: Vec3)
    requires GridShaped(g) && WalkPosition(x, y, z)
    ensures p in Walk(g, x, y, z) <==> InCell(p.x, p.y, p.z) && Precedes(p.x, p.y, p.z, x, y, z) && g[p.x][p.y][p.z]
    decreases x, y, z
  {
    if z > 0 {
      WalkMembers(g, x, y, z - 1, p);
      MembersCellStep(g, x, y, z - 1, p);
    } else if y > 0 {
      WalkMembers(g, x, y - 1, CHUNK_SIZE, p);
    } else if x > 0 {
      WalkMembers(g, x - 1, CHUNK_SIZE, 0, p);
    }
  }

  /** When the grid marks only p, the walk holds p once it has passed p, and nothing before. */
  lemma {:induction false} WalkSingle(g: seq<seq<seq<bool>>>, x: int, y: int, z: int, p: Vec3)
    requires GridShaped(g) && WalkPosition(x, y, z) && InCell(p.x, p.y, p.z)
    requires g[p.x][p.y][p.z]
    requires forall a, b, c {:trigger g[a][b][c]} :: InCell(a, b, c) && Vec3(a, b, c) != p ==> !g[a][b][c]
    ensures Walk(g, x, y, z) == if Precedes(p.x, p.y, p.z, x, y, z) then [p] else []
    decreases x, y, z
  {
    if z > 0 {
      WalkSingle(g, x, y, z - 1, p);
      if Vec3(x, y, z - 1) != p {
        assert !g[x][y][z - 1];
      }
    } else if y > 0 {
      WalkSingle(g, x, y - 1, CHUNK_SIZE, p);
    } else if x > 0 {
      WalkSingle(g, x - 1, CHUNK_SIZE, 0, p);
    }
  }

  /** The walk meets cells in strictly increasing x-y-z order, so no cell comes out twice. */
  lemma {:induction false} WalkSorted(g: seq<seq<seq<bool>>>, x: int, y: int, z: int, i: int, j: int)
    requires GridShaped(g) && WalkPosition(x, y, z)
    requires 0 <= i < j < |Walk(g, x, y, z)|
    ensures Precedes(Walk(g, x, y, z)[i].x, Walk(g, x, y, z)[i].y, Walk(g, x, y, z)[i].z,
                     Walk(g, x, y, z)[j].x, Walk(g, x, y, z)[j].y, Walk(g, x, y, z)[j].z)
    ensures Walk(g, x, y, z)[i] != Walk(g, x, y, z)[j]
    decreases x, y, z
  {
    if z > 0 {
      var front := Walk(g, x, y, z - 1);
      assert Walk(g, x, y, z) == front + (if g[x][y][z - 1] then [Vec3(x, y, z - 1)] else []);
      if j < |front| {
        WalkSorted(g, x, y, z - 1, i, j);
      } else {
        WalkMembers(g, x, y, z - 1, front[i]);
      }
    } else if y > 0 {
      WalkSorted(g, x, y - 1, CHUNK_SIZE, i, j);
    } else if x > 0 {
      WalkSorted(g, x - 1, CHUNK_SIZE, 0, i, j);
    }
  }

  /** A list without repeats has as many distinct elements as entries. */
  lemma {:induction false} DistinctCard(ps: seq<Vec3>)
    requires forall i, j :: 0 <= i < j < |ps| ==> ps[i] != ps[j]
    ensures |set p | p in ps| == |ps|
  {
    if ps != [] {
      var front := ps[..|ps| - 1];
      var last := ps[|ps| - 1];
      DistinctCard(front);
      assert (set p | p in ps) == (set p | p in front) + {last};
    }
  }

  /** The cells of the chunk that render. */
  ghost function RenderingCells(m: MeshInput): set<Vec3>
    requires m.Valid()
  {
    set x, y, z | 0 <= x < CHUNK_SIZE && 0 <= y < CHUNK_SIZE && 0 <= z < CHUNK_SIZE && m.Renders(x, y, z) :: Vec3(x, y, z)
  }

  /** A cell is drawn, and so appears among the mesh's cube positions, exactly when it renders. */
  lemma DrawnCells(m: MeshInput, p: Vec3)
    requires m.Valid()
    ensures p in Drawn(m) <==> InCell(p.x, p.y, p.z) && m.Renders(p.x, p.y, p.z)
  {
    WalkMembers(RenderGrid(m), CHUNK_SIZE, 0, 0, p);
    if InCell(p.x, p.y, p.z) {
      RenderGridAt(m, p.x, p.y, p.z);
    }
  }

  /** The drawn cells are the rendering cells, each exactly once, in increasing x-y-z order. */
  lemma DrawnOrder(m: MeshInput)
    requires m.Valid()
    ensures forall i, j :: 0 <= i < j < |Drawn(m)| ==>
      Precedes(Drawn(m)[i].x, Drawn(m)[i].y, Drawn(m)[i].z, Drawn(m)[j].x, Drawn(m)[j].y, Drawn(m)[j].z)
    ensures (set p | p in Drawn(m)) == RenderingCells(m)
    ensures |Drawn(m)| == |RenderingCells(m)|
  {
    var ps := Drawn(m);
    var g := RenderGrid(m);
    forall i, j | 0 <= i < j < |ps|
      ensures Precedes(ps[i].x, ps[i].y, ps[i].z, ps[j].x, ps[j].y, ps[j].z) && ps[i] != ps[j]
    {
      WalkSorted(g, CHUNK_SIZE, 0, 0, i, j);
    }
    forall p
      ensures p in ps <==> p in RenderingCells(m)
    {
      DrawnCells(m, p);
    }
    assert (set p | p in ps) == RenderingCells(m);
    DistinctCard(ps);
  }

  /** The mesh is empty exactly when no cell of the chunk is drawn. */
  lemma MeshEmptyIff(m: MeshInput)
    requires m.Valid()
    ensures Mesh(m) == [] <==> forall x, y, z :: InCell(x, y, z) ==> !m.Renders(x, y, z)
  {
    if Mesh(m) != [] {
      var p := Drawn(m)[0];
      DrawnCells(m, p);
    } else {
      forall x, y, z | InCell(x, y, z)
        ensures !m.Renders(x, y, z)
      {
        DrawnCells(m, Vec3(x, y, z));
      }
    }
  }

  /** Vertex k of the i-th cube sits at index 36 * i + k of the cubes. */
  lemma {:induction false} CubesAt(ps: seq<Vec3>, i: int, k: int)
    requires 0 <= i < |ps| && 0 <= k < Cube.TOTAL_VERTEX_COUNT
    ensures Cubes(ps)[Cube.TOTAL_VERTEX_COUNT * i + k] == Cube.Vertices(ps[i])[k]
  {
    var front := ps[..|ps| - 1];
    assert Cubes(ps) == Cubes(front) + Cube.Vertices(ps[|ps| - 1]);
    if i < |ps| - 1 {
      CubesAt(front, i, k);
    }
  }

  /** The mesh is made of whole 36-vertex cubes, one per drawn cell in walk order:
      vertex k of the i-th drawn cell's cube sits at index 36 * i + k. */
  lemma MeshLayout(m: MeshInput)
    requires m.Valid()
    ensures |Mesh(m)| == Cube.TOTAL_VERTEX_COUNT * |Drawn(m)|
    ensures |Mesh(m)| % Cube.TOTAL_VERTEX_COUNT == 0
    ensures forall i, k :: 0 <= i < |Drawn(m)| && 0 <= k < Cube.TOTAL_VERTEX_COUNT ==>
      Mesh(m)[Cube.TOTAL_VERTEX_COUNT * i + k] == Cube.Vertices(Drawn(m)[i])[k]
  {
    var ps := Drawn(m);
    assert Mesh(m) == Cubes(ps);
    forall i, k | 0 <= i < |ps| && 0 <= k < Cube.TOTAL_VERTEX_COUNT
      ensures Cubes(ps)[Cube.TOTAL_VERTEX_COUNT * i + k] == Cube.Vertices(ps[i])[k]
    {
      CubesAt(ps, i, k);
    }
  }

  /** An all-air chunk meshes to nothing, whatever its neighbours hold. */
  lemma AllAirMeshesEmpty(m: MeshInput)
    requires m.Valid()
    requires forall x, y, z :: InCell(x, y, z) ==> m.CellIsAir(x, y, z)
    ensures Mesh(m) == []
  {
    MeshEmptyIff(m);
  }

  /** A chunk filled with one solid block, surrounded by six chunks filled with it
      too, meshes to nothing: no cell has an air neighbour. */
  lemma EnclosedSolidMeshesEmpty(m: MeshInput, solid: BlockId)
    requires m.Valid()
    requires solid < |m.blocks| && !m.blocks[solid].air
    requires m.chunk == Filled(solid)
    requires forall side :: IsSide(side) ==> m.adjacent[side] == Filled(solid)
    ensures Mesh(m) == []
  {
    forall x, y, z | InCell(x, y, z)
      ensures !m.Renders(x, y, z)
    {
      EnclosedCellHidden(m, solid, x, y, z);
    }
    MeshEmptyIff(m);
  }

  /** One cell of EnclosedSolidMeshesEmpty: every neighbour reads the solid block. */
  lemma EnclosedCellHidden(m: MeshInput, solid: BlockId, x: int, y: int, z: int)
    requires m.Valid() && InCell(x, y, z)
    requires solid < |m.blocks| && !m.blocks[solid].air
    requires m.chunk == Filled(solid)
    requires forall side :: IsSide(side) ==> m.adjacent[side] == Filled(solid)
    ensures !m.ShouldRender(x, y, z)
  {
    forall side | IsSide(side)
      ensures !m.NeighbourIsAir(x, y, z, side)
    {
      assert m.NeighbourId(x, y, z, side) == solid;
    }
  }

  /** A single solid block in an otherwise air chunk meshes to exactly its own cube,
      whatever the neighbouring chunks hold. */
  lemma LoneSolidBlock(m: MeshInput, air: BlockId, solid: BlockId, p: Vec3)
    requires m.Valid() && InCell(p.x, p.y, p.z)
    requires air < |m.blocks| && m.blocks[air].air
    requires solid < |m.blocks| && !m.blocks[solid].air
    requires m.chunk == Filled(air).Set(p.x, p.y, p.z, solid)
    ensures Mesh(m) == Cube.Vertices(p)
  {
    var side := if p.x < CHUNK_SIZE - 1 then 0 else 1;
    NeighbourResolution(m, p.x, p.y, p.z, side);
    assert m.NeighbourIsAir(p.x, p.y, p.z, side);
    assert m.Renders(p.x, p.y, p.z);
    var g := RenderGrid(m);
    RenderGridAt(m, p.x, p.y, p.z);
    forall a, b, c | InCell(a, b, c) && Vec3(a, b, c) != p
      ensures !g[a][b][c]
    {
      assert m.CellIsAir(a, b, c);
      RenderGridAt(m, a, b, c);
    }
    WalkSingle(g, CHUNK_SIZE, 0, 0, p);
    assert Cubes([p]) == Cubes([]) + Cube.Vertices(p);
  }
}
