/**
 * The chunk record every retrieval stage passes along.  A Dafny datatype
 * value cannot be updated in place, which is what the source's frozen
 * dataclass promises; and since values do not alias, every chunk has a
 * metadata dictionary of its own.
 */
module Chunks {
  import opened Wrappers

  /**
   * `metadata` holds the chunker's ordinal under "index"; other metadata
   * values the source allows (`Any`) are not modelled.
   */
  datatype Chunk = Chunk(
    text: string,
    source: string,
    page: int,
    chunkId: string,
    parentId: Option<string>,
    isParent: bool,
    metadata: map<string, int>)

  /** `Chunk(text, source, page, chunk_id)`: the four required fields, the rest defaulted. */
  function NewChunk(text: string, source: string, page: int, chunkId: string): (c: Chunk)
    ensures c.text == text && c.source == source && c.page == page && c.chunkId == chunkId
    ensures c.parentId == None
    ensures !c.isParent
    ensures c.metadata == map[]
  {
    Chunk(text, source, page, chunkId, None, false, map[])
  }

  /** Python's truth value of `chunk.parent_id`: set and non-empty. */
  predicate HasParentId(c: Chunk) {
    c.parentId.Some? && c.parentId.value != ""
  }
}
