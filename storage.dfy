/**
 * The saved state of a pipeline, as the file system holds it: a map from
 * path to what the file holds.  Pickle and the FAISS file format are not
 * modelled; a file is the value that was written to it.
 */
module Storage {
  import opened Wrappers
  import opened Chunks

  /** What a saved file holds: the FAISS index (the texts it embeds), the child chunks or the parent map. */
  datatype Stored = IndexFile(texts: seq<string>) | ChunksFile(chunks: seq<Chunk>) | ParentsFile(parents: map<string, Chunk>)

  type Files = map<string, Stored>

  /** The state a `load_state` leaves (the index as the texts it embeds), and whether it raised. */
  datatype Loaded<E> = Loaded(index: Option<seq<string>>, children: seq<Chunk>, parents: map<string, Chunk>, result: Result<(), E>)
}
