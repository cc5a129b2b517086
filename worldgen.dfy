/**
 * Deterministic terrain fill (pearl/src/worldgen.rs): every chunk cell below
 * sea level is dirt, everything else air, whatever the chunk's x and z.
 */
module Worldgen {
  import opened Options
  import opened Vectors
  import opened World
  import opened Registries

  const SEA_LEVEL: int := 0

  const AIR_NAME: string := "default:air"
  const DIRT_NAME: string := "default:dirt"

  /** The block placed at local height `j` of the chunk at chunk-height `chunkY`. */
  function LayerBlock(airBlock: BlockId, dirtBlock: BlockId, chunkY: int, j: int): BlockId {
    if j + chunkY * CHUNK_SIZE < SEA_LEVEL then dirtBlock else airBlock
  }

  /** The chunk the generator produces at `pos`: cell [i][j][k] holds the layer block of `j`. */
  function Terrain(airBlock: BlockId, dirtBlock: BlockId, pos: Vec3): (c: Chunk)
    ensures c.Valid()
    ensures forall i, j, k :: InChunk(i) && InChunk(j) && InChunk(k) ==>
              c.At(i, j, k) == (if j + pos.y * CHUNK_SIZE < SEA_LEVEL then dirtBlock else airBlock)
  {
    Chunk(seq(CHUNK_SIZE, i => seq(CHUNK_SIZE, j => seq(CHUNK_SIZE, k => LayerBlock(airBlock, dirtBlock, pos.y, j)))))
  }

  /** The default generator: caches the ids of the two block types it places. */
  datatype ChunkGenerator = ChunkGenerator(airBlock: BlockId, dirtBlock: BlockId) {

    /** `ChunkGenerator::new`: resolves both names; the source unwraps, so both must be registered. */
    static function New(registry: Registry<Block>): (g: ChunkGenerator)
      reads registry
      requires registry.Valid()
      requires AIR_NAME in registry.namesById && DIRT_NAME in registry.namesById
      ensures g.airBlock < |registry.namesById| && registry.namesById[g.airBlock] == AIR_NAME
      ensures g.dirtBlock < |registry.namesById| && registry.namesById[g.dirtBlock] == DIRT_NAME
      ensures g.airBlock != g.dirtBlock
    {
      ChunkGenerator(registry.GetItemId(AIR_NAME).value, registry.GetItemId(DIRT_NAME).value)
    }

    /** `generate_chunk`: starts from an all-air chunk and overwrites every
        cell, layer by layer, in place. */
    method GenerateChunk(pos: Vec3) returns (chunk: Chunk)
      ensures chunk == Terrain(airBlock, dirtBlock, pos)
    {
      chunk := Filled(airBlock);
      for i := 0 to CHUNK_SIZE
        invariant chunk.Valid()
        invariant forall a, b, c :: InChunk(a) && InChunk(b) && InChunk(c) ==>
                    chunk.At(a, b, c) == if a < i then LayerBlock(airBlock, dirtBlock, pos.y, b) else airBlock
      {
        for j := 0 to CHUNK_SIZE
          invariant chunk.Valid()
          invariant forall a, b, c :: InChunk(a) && InChunk(b) && InChunk(c) ==>
                      chunk.At(a, b, c) == if a < i || (a == i && b < j) then LayerBlock(airBlock, dirtBlock, pos.y, b) else airBlock
        {
          var height := j + pos.y * CHUNK_SIZE;
          var generatedBlock := if height < SEA_LEVEL then dirtBlock else airBlock;
          for k := 0 to CHUNK_SIZE
            invariant chunk.Valid()
            invariant forall a, b, c :: InChunk(a) && InChunk(b) && InChunk(c) ==>
                        chunk.At(a, b, c) == if a < i || (a == i && b < j) || (a == i && b == j && c < k)
                                             then LayerBlock(airBlock, dirtBlock, pos.y, b) else airBlock
          {
            chunk := chunk.Set(i, j, k, generatedBlock);
          }
        }
      }
      Extensionality(chunk, Terrain(airBlock, dirtBlock, pos));
    }
  }

  /** The generated chunk depends on the chunk's height alone, not on its x or z. */
  lemma TerrainIgnoresXZ(air: BlockId, dirt: BlockId, p: Vec3, q: Vec3)
    requires p.y == q.y
    ensures Terrain(air, dirt, p) == Terrain(air, dirt, q)
  {
  }

  /** A chunk at or above chunk-height 0 lies wholly above sea level: all air. */
  lemma AboveSeaLevelIsAir(air: BlockId, dirt: BlockId, pos: Vec3)
    requires pos.y >= 0
    ensures Terrain(air, dirt, pos) == Filled(air)
  {
    Extensionality(Terrain(air, dirt, pos), Filled(air));
  }

  /** A chunk at chunk-height -1 or lower lies wholly below sea level: all dirt. */
  lemma BelowSeaLevelIsDirt(air: BlockId, dirt: BlockId, pos: Vec3)
    requires pos.y <= -1
    ensures Terrain(air, dirt, pos) == Filled(dirt)
  {
    Extensionality(Terrain(air, dirt, pos), Filled(dirt));
  }

  /** Every cell is air or dirt, and all cells of one horizontal layer agree. */
  lemma TerrainLayered(air: BlockId, dirt: BlockId, pos: Vec3, i: int, j: int, k: int, i': int, k': int)
    requires InChunk(i) && InChunk(j) && InChunk(k) && InChunk(i') && InChunk(k')
    ensures Terrain(air, dirt, pos).At(i, j, k) in {air, dirt}
    ensures Terrain(air, dirt, pos).At(i, j, k) == Terrain(air, dirt, pos).At(i', j, k')
  {
  }

  /** Dirt lies below air: if a layer is dirt, every lower layer is dirt too. */
  lemma DirtBelowAir(air: BlockId, dirt: BlockId, pos: Vec3, i: int, j: int, j': int, k: int)
    requires InChunk(i) && InChunk(j) && InChunk(j') && InChunk(k) && j' <= j
    requires Terrain(air, dirt, pos).At(i, j, k) == dirt
    ensures Terrain(air, dirt, pos).At(i, j', k) == dirt
  {
  }
}
