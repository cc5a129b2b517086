/**
 * Blocks and chunks (pearl/src/world.rs): a chunk is a fixed
 * CHUNK_SIZE x CHUNK_SIZE x CHUNK_SIZE grid of block ids indexed [x][y][z].
 */
module World {
  /** A block type's properties; the mesher consults only `air`. */
  datatype Block = Block(air: bool)

  const CHUNK_SIZE: nat := 32

  type BlockId = nat

  predicate InChunk(i: int) {
    0 <= i < CHUNK_SIZE
  }

  datatype Chunk = Chunk(blocks: seq<seq<seq<BlockId>>>) {
    /** The shape the source's array type fixes: 32 entries at each of the three levels. */
    ghost predicate Valid() {
      && |blocks| == CHUNK_SIZE
      && (forall x :: 0 <= x < CHUNK_SIZE ==> |blocks[x]| == CHUNK_SIZE)
      && (forall x, y :: 0 <= x < CHUNK_SIZE && 0 <= y < CHUNK_SIZE ==> |blocks[x][y]| == CHUNK_SIZE)
    }

    function At(x: int, y: int, z: int): BlockId
      requires Valid() && InChunk(x) && InChunk(y) && InChunk(z)
    {
      blocks[x][y][z]
    }

    /** The chunk with cell [x][y][z] overwritten by `id`: the source's
        `chunk.blocks[x][y][z] = id`. */
    function Set(x: int, y: int, z: int, id: BlockId): (c: Chunk)
      requires Valid() && InChunk(x) && InChunk(y) && InChunk(z)
      ensures c.Valid()
      ensures c.At(x, y, z) == id
      ensures forall a, b, d :: InChunk(a) && InChunk(b) && InChunk(d) && (a, b, d) != (x, y, z) ==>
                c.At(a, b, d) == At(a, b, d)
    {
      Chunk(blocks[x := blocks[x][y := blocks[x][y][z := id]]])
    }
  }

  /** Two chunks of the right shape are equal when every cell is. */
  lemma {:induction false} Extensionality(c: Chunk, d: Chunk)
    requires c.Valid() && d.Valid()
    requires forall x, y, z :: InChunk(x) && InChunk(y) && InChunk(z) ==> c.At(x, y, z) == d.At(x, y, z)
    ensures c == d
  {
    forall x | 0 <= x < CHUNK_SIZE
      ensures c.blocks[x] == d.blocks[x]
    {
      forall y | 0 <= y < CHUNK_SIZE
        ensures c.blocks[x][y] == d.blocks[x][y]
      {
        forall z | 0 <= z < CHUNK_SIZE
          ensures c.blocks[x][y][z] == d.blocks[x][y][z]
        {
          assert c.At(x, y, z) == d.At(x, y, z);
        }
      }
    }
  }

  /** `Chunk::filled`: every cell holds `id`. */
  function Filled(id: BlockId): (c: Chunk)
    ensures c.Valid()
    ensures forall x, y, z :: InChunk(x) && InChunk(y) && InChunk(z) ==> c.At(x, y, z) == id
  {
    Chunk(seq(CHUNK_SIZE, _ => seq(CHUNK_SIZE, _ => seq(CHUNK_SIZE, _ => id))))
  }

  /** A filled chunk determines its id: filled chunks are equal exactly when their ids are. */
  lemma FilledInjective(a: BlockId, b: BlockId)
    ensures Filled(a) == Filled(b) <==> a == b
  {
    if Filled(a) == Filled(b) {
      assert Filled(a).At(0, 0, 0) == Filled(b).At(0, 0, 0);
    }
  }

  /** Any chunk whose every cell holds `id` is the filled chunk of `id`. */
  lemma UniformIsFilled(c: Chunk, id: BlockId)
    requires c.Valid()
    requires forall x, y, z :: InChunk(x) && InChunk(y) && InChunk(z) ==> c.At(x, y, z) == id
    ensures c == Filled(id)
  {
    Extensionality(c, Filled(id));
  }
}
