/** Chunk ids, shared by the retrieval modules. */
module ChunkIds {
  type ChunkId = nat
}
