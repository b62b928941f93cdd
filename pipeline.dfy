/**
 * The `SmartRAG` class of pipeline.py: it indexes one document (parse,
 * describe the charts, chunk, embed), searches the index, builds the
 * answer prompt, and saves and loads its state.  The embedding model and
 * FAISS are not modelled: the index is the list of child texts it was
 * built from, and a search is given the neighbours FAISS returned.  The
 * file system is a map from path to what the file holds.
 */
module Pipeline {
  import opened Wrappers
  import opened Strings
  import opened Chunks
  import opened Chunking
  import opened ChunkingProps
  import opened Retrieval
  import opened Llm
  import opened Services
  import opened Indexing
  import opened Prompting
  import opened Storage

  const DataDir := "/app/data/"

  /** `FAISS_DIR / f"index_{doc_id}.faiss"`, FAISS_DIR being /app/data/faiss_indexes */
  function IndexPath(docId: int): string {
    DataDir + "faiss_indexes/" + "index_" + IntToString(docId) + ".faiss"
  }

  /** `CHUNKS_DIR / f"chunks_{doc_id}.pkl"`, CHUNKS_DIR being /app/data/chunks */
  function ChunksPath(docId: int): string {
    DataDir + "chunks/" + "chunks_" + IntToString(docId) + ".pkl"
  }

  /** `CHUNKS_DIR / f"parents_{doc_id}.pkl"` */
  function ParentsPath(docId: int): string {
    DataDir + "chunks/" + "parents_" + IntToString(docId) + ".pkl"
  }

  /** Where `load_state` looks for the parent map of a chunks file. */
  function ParentsPathFor(chunksPath: string): string {
    Replace(chunksPath, "chunks_", "parents_")
  }

  /** The files `save_state` writes for document `docId`, when there is an index. */
  function Saved(index: Option<seq<string>>, children: seq<Chunk>, parents: map<string, Chunk>, docId: int, files: Files): Files {
    if index.None? then files
    else files[IndexPath(docId) := IndexFile(index.value)]
              [ChunksPath(docId) := ChunksFile(children)]
              [ParentsPath(docId) := ParentsFile(parents)]
  }

  datatype LoadError = IndexFilesMissing | Unreadable(path: string)

  /**
   * `load_state(faiss_path, chunks_path)` from the state `index`,
   * `children`, `parents`: both files must exist; the index, then the
   * chunks, are replaced; the parent map only when its file exists.  A
   * file of the wrong kind stands for a read that raises, leaving what was
   * already loaded.
   */
  function LoadSpec(files: Files, faissPath: string, chunksPath: string,
                    index: Option<seq<string>>, children: seq<Chunk>, parents: map<string, Chunk>): Loaded<LoadError>
  {
    if faissPath !in files || chunksPath !in files then Loaded(index, children, parents, Err(IndexFilesMissing))
    else if !files[faissPath].IndexFile? then Loaded(index, children, parents, Err(Unreadable(faissPath)))
    else
      var index' := Some(files[faissPath].texts);
      if !files[chunksPath].ChunksFile? then Loaded(index', children, parents, Err(Unreadable(chunksPath)))
      else
        var children' := files[chunksPath].chunks;
        var pp := ParentsPathFor(chunksPath);
        if pp !in files then Loaded(index', children', parents, Ok(()))
        else if !files[pp].ParentsFile? then Loaded(index', children', parents, Err(Unreadable(pp)))
        else Loaded(index', children', files[pp].parents, Ok(()))
  }

  /** The descriptions `analyze_image` gives for the images, the `k`-th vision call answering `vision(k)`. */
  function Analyses(vision: nat -> VisionReply, n: nat): (ds: seq<Option<string>>)
    ensures |ds| == n && forall k :: 0 <= k < n ==> ds[k] == Some(AnalyzeImage(vision(k)))
  {
    seq(n, (k: int) requires 0 <= k < n => Some(AnalyzeImage(vision(k))))
  }

  /**
   * `index_document(file_path)` from the state `index`, `children`,
   * `parents`, `descriptions`, given the parser's answer, the vision
   * service's answers and the id source.  A parser failure changes
   * nothing.  Otherwise every image is described (a failed call gives the
   * fixed failure text) and its placeholder replaced; the chunker's result
   * becomes the state; the index is rebuilt only when there are child
   * chunks, and otherwise the previous index is kept.
   */
  function IndexSpec(sp: Splitters, filePath: string, parsed: ParserResponse, vision: nat -> VisionReply, uuid: nat -> string,
                     index: Option<seq<string>>, children: seq<Chunk>, parents: map<string, Chunk>,
                     descriptions: map<string, string>): Indexed
  {
    match ParseDocument(parsed)
    case Err(e) => Indexed(Err(e), index, children, parents, descriptions)
    case Ok(data) =>
      var text, images := data.text.GetOr(""), data.images.GetOr([]);
      var descs := Analyses(vision, |images|);
      var descriptions' := Described(descriptions, images, descs, |images|);
      match ProcessSpec(sp, Injected(text, images, descs, |images|), filePath, uuid)
      case Err(_) => Indexed(Err(IndexingError.DocumentTooLarge), index, children, parents, descriptions')
      case Ok((cs, pm)) =>
        Indexed(Ok(()), if cs == [] then index else Some(Texts(cs)), cs, pm, descriptions')
  }

  /**
   * The vision step of `index_document`: each image in turn is described
   * and recorded under its file name, and its placeholder in the markdown
   * replaced by the description block.
   */
  method DescribeCharts(markdown: string, images: seq<string>, descriptions: map<string, string>, vision: nat -> VisionReply)
    returns (text: string, descriptions': map<string, string>)
    ensures text == Injected(markdown, images, Analyses(vision, |images|), |images|)
    ensures descriptions' == Described(descriptions, images, Analyses(vision, |images|), |images|)
  {
    ghost var descs := Analyses(vision, |images|);
    text, descriptions' := markdown, descriptions;
    for k := 0 to |images|
      invariant text == Injected(markdown, images, descs, k)
      invariant descriptions' == Described(descriptions, images, descs, k)
    {
      var fname := Basename(images[k]);
      var desc := AnalyzeImage(vision(k));
      assert descs[k] == Some(desc) && NameOf(images, k) == fname;
      descriptions' := descriptions'[fname := desc];
      text := Replace(text, Placeholder(fname), VisualBlock(fname, desc));
    }
  }

  class SmartRag {
    const outputDir: Option<string>
    const visionModelName: string
    const llm: Client
    const chunker: DocumentChunker
    /** The FAISS index, as the child texts it embeds; None before the first index is built. */
    var index: Option<seq<string>>
    var childChunks: seq<Chunk>
    var parentMap: map<string, Chunk>
    var chartDescriptions: map<string, string>

    /**
     * `SmartRAG(output_dir, vision_model_name)`: the process-wide LLM
     * client, a default chunker and an empty state.
     */
    constructor (registry: LlmRegistry, provider: string, groqKey: Option<string>, groqSdkRaises: bool,
                 sanctuaryKey: Option<string>, split: (string, nat, nat) -> seq<string>,
                 outputDir: Option<string> := None, visionModelName: string := "Moondream2")
      modifies registry
      ensures this.outputDir == outputDir && this.visionModelName == visionModelName
      ensures old(registry.instance).Some? ==> llm == old(registry.instance).value
      ensures registry.instance == Some(llm)
      ensures chunker.splitters == Splitters(split, 400, 50, 2000, 200)
      ensures index == None && childChunks == [] && parentMap == map[] && chartDescriptions == map[]
    {
      this.outputDir := outputDir;
      this.visionModelName := visionModelName;
      var client := registry.GetLlmClient(provider, groqKey, groqSdkRaises, sanctuaryKey);
      llm := client;
      chunker := new DocumentChunker(split);
      index := None;
      childChunks := [];
      parentMap := map[];
      chartDescriptions := map[];
    }

    /** `index_document(file_path)`. */
    method IndexDocument(filePath: string, parsed: ParserResponse, vision: nat -> VisionReply, uuid: nat -> string)
      returns (r: Result<(), IndexingError>)
      modifies this
      ensures Indexed(r, index, childChunks, parentMap, chartDescriptions)
              == IndexSpec(chunker.splitters, filePath, parsed, vision, uuid,
                           old(index), old(childChunks), old(parentMap), old(chartDescriptions))
    {
      var data := ParseDocument(parsed);
      if data.Err? {
        return Err(data.error);
      }
      var markdown := data.value.text.GetOr("");
      var images := data.value.images.GetOr([]);
      var text, descriptions := DescribeCharts(markdown, images, chartDescriptions, vision);
      chartDescriptions := descriptions;
      var processed := chunker.Process(text, filePath, uuid);
      if processed.Err? {
        return Err(IndexingError.DocumentTooLarge);
      }
      childChunks, parentMap := processed.value.0, processed.value.1;
      if childChunks != [] {
        index := Some(Texts(childChunks));
      }
      r := Ok(());
    }

    /**
     * `search`: no results without an index; otherwise the deduplicating
     * walk over the `3 * top_k` neighbours with the guard as written,
     * `idx < len(self.child_chunks)`, so that -1 padding reaches
     * `self.child_chunks[-1]`: the last child again, or IndexError when
     * there are no child chunks.
     */
    method Search(hits: seq<Hit>, topK: nat) returns (r: Result<seq<Scored>, SearchError>)
      requires index.Some? ==> |hits| == 3 * topK && FaissLabels(hits)
      ensures index.None? ==> r == Ok([])
      ensures index.Some? ==> r == SearchOutcome(ChildFallback, hits, childChunks, parentMap, topK)
    {
      if index.None? {
        return Ok([]);
      }
      r := Walk(ChildFallback, hits, childChunks, parentMap, topK);
    }

    /** `generate_answer`: the context blocks in order, the question, and one call without a system prompt. */
    method GenerateAnswer(question: string, contextChunks: seq<Scored>, ex: Exchange) returns (g: Generated)
      ensures g == Generate(llm, AnswerPrompt(question, ContextString(contextChunks)), None, ex)
    {
      var context := BuildContext(contextChunks);
      g := Generate(llm, AnswerPrompt(question, context), None, ex);
    }

    /**
     * `save_state(doc_id)`: nothing without an index; otherwise the index,
     * the chunks and the parent map are written, and the index and chunks
     * paths returned.
     */
    method SaveState(docId: int, files: Files) returns (files': Files, paths: Option<(string, string)>)
      ensures files' == Saved(index, childChunks, parentMap, docId, files)
      ensures paths == if index.None? then None else Some((IndexPath(docId), ChunksPath(docId)))
    {
      if index.None? {
        return files, None;
      }
      files' := files[IndexPath(docId) := IndexFile(index.value)];
      files' := files'[ChunksPath(docId) := ChunksFile(childChunks)];
      files' := files'[ParentsPath(docId) := ParentsFile(parentMap)];
      paths := Some((IndexPath(docId), ChunksPath(docId)));
    }

    /** `load_state(faiss_path, chunks_path)`. */
    method LoadState(faissPath: string, chunksPath: string, files: Files) returns (r: Result<(), LoadError>)
      modifies this
      ensures Loaded(index, childChunks, parentMap, r)
              == LoadSpec(files, faissPath, chunksPath, old(index), old(childChunks), old(parentMap))
    {
      if faissPath !in files || chunksPath !in files {
        return Err(IndexFilesMissing);
      }
      if !files[faissPath].IndexFile? {
        return Err(Unreadable(faissPath));
      }
      index := Some(files[faissPath].texts);
      if !files[chunksPath].ChunksFile? {
        return Err(Unreadable(chunksPath));
      }
      childChunks := files[chunksPath].chunks;
      var parentPath := Replace(chunksPath, "chunks_", "parents_");
      if parentPath in files {
        if !files[parentPath].ParentsFile? {
          return Err(Unreadable(parentPath));
        }
        parentMap := files[parentPath].parents;
      }
      r := Ok(());
    }
  }

  // ------------------------------------------------------------ the paths

  /** `chunks/` is no match for `chunks_`, and no other match starts inside it. */
  lemma ChunksSlash(tail: string)
    ensures Replace("chunks/" + tail, "chunks_", "parents_") == "chunks/" + Replace(tail, "chunks_", "parents_")
  {
    var s := "chunks/" + tail;
    assert s[..7][6] == '/';
    assert s[1..] == "hunks/" + tail;
    assert forall j :: 0 <= j < 6 ==> "hunks/"[j] != 'c';
    ReplaceSkipsFree("hunks/", tail, "chunks_", "parents_");
    assert "chunks/" + tail == ['c'] + ("hunks/" + tail);
    assert "chunks/" == ['c'] + "hunks/";
  }
  /** A match at the start is replaced, and the search resumes after it. */
  lemma TagHit(rest: string)
    ensures Replace("chunks_" + rest, "chunks_", "parents_") == "parents_" + Replace(rest, "chunks_", "parents_")
  {
    var tail := "chunks_" + rest;
    assert tail[..7] == "chunks_" && tail[7..] == rest;
  }
  /** No match in a name free of `c`. */
  lemma NoTag(id: string)
    requires forall j :: 0 <= j < |id| ==> id[j] != 'c'
    ensures Replace(id + ".pkl", "chunks_", "parents_") == id + ".pkl"
  {
    ReplaceSkipsFree(id, ".pkl", "chunks_", "parents_");
  }
  lemma Assoc5<T>(a: seq<T>, b: seq<T>, c: seq<T>, d: seq<T>, e: seq<T>)
    ensures a + b + c + d + e == a + (b + (c + (d + e)))
  {
  }
  /** Swapping the tag of a chunks file name under a directory path that holds no `c` before `chunks/`. */
  lemma SwapTag(dir: string, id: string)
    requires forall j :: 0 <= j < |dir| ==> dir[j] != 'c'
    requires forall j :: 0 <= j < |id| ==> id[j] != 'c'
    ensures Replace(dir + "chunks/" + "chunks_" + id + ".pkl", "chunks_", "parents_")
            == dir + "chunks/" + "parents_" + id + ".pkl"
  {
    var rest := id + ".pkl";
    Assoc5(dir, "chunks/", "chunks_", id, ".pkl");
    Assoc5(dir, "chunks/", "parents_", id, ".pkl");
    ReplaceSkipsFree(dir, "chunks/" + ("chunks_" + rest), "chunks_", "parents_");
    ChunksSlash("chunks_" + rest);
    TagHit(rest);
    NoTag(id);
  }

  /** The parents path `load_state` derives from a chunks path is the one `save_state` wrote. */
  lemma ParentsPathRoundTrip(docId: int)
    ensures ParentsPathFor(ChunksPath(docId)) == ParentsPath(docId)
  {
    assert forall j :: 0 <= j < |DataDir| ==> DataDir[j] != 'c';
    SwapTag(DataDir, IntToString(docId));
  }

  /** The three files of a document are at three different paths. */
  lemma SavedPathsDistinct(docId: int)
    ensures IndexPath(docId) != ChunksPath(docId)
    ensures IndexPath(docId) != ParentsPath(docId) && ChunksPath(docId) != ParentsPath(docId)
  {
    assert IndexPath(docId)[10] == 'f' && ChunksPath(docId)[10] == 'c' && ParentsPath(docId)[10] == 'c';
    assert ChunksPath(docId)[17] == 'c' && ParentsPath(docId)[17] == 'p';
  }

  /**
   * Loading what `save_state` wrote for `docId`, at the paths it returned,
   * restores the index, the chunks and the parent map, whatever the state
   * before.
   */
  lemma SaveThenLoad(texts: seq<string>, children: seq<Chunk>, parents: map<string, Chunk>, docId: int, files: Files,
                     index0: Option<seq<string>>, children0: seq<Chunk>, parents0: map<string, Chunk>)
    ensures LoadSpec(Saved(Some(texts), children, parents, docId, files), IndexPath(docId), ChunksPath(docId),
                     index0, children0, parents0)
            == Loaded(Some(texts), children, parents, Ok(()))
  {
    SavedPathsDistinct(docId);
    ParentsPathRoundTrip(docId);
  }

  /**
   * Without a parents file, loading keeps the parent map of whatever was
   * indexed or loaded before, next to the loaded chunks.
   */
  lemma StaleParentsKept(files: Files, faissPath: string, chunksPath: string,
                         index: Option<seq<string>>, children: seq<Chunk>, parents: map<string, Chunk>)
    requires faissPath in files && chunksPath in files
    requires files[faissPath].IndexFile? && files[chunksPath].ChunksFile?
    requires ParentsPathFor(chunksPath) !in files
    ensures LoadSpec(files, faissPath, chunksPath, index, children, parents)
            == Loaded(Some(files[faissPath].texts), files[chunksPath].chunks, parents, Ok(()))
  {
  }

  // ------------------------------------------------------------ indexing

  /**
   * After `index_document`, `chart_descriptions` holds exactly the names it
   * held before and the file name of every image, and each image's name
   * maps to the analysis of the last image of that name.
   */
  lemma IndexDescribesEveryChart(sp: Splitters, filePath: string, parsed: ParserResponse, vision: nat -> VisionReply,
                                 uuid: nat -> string, index: Option<seq<string>>, children: seq<Chunk>,
                                 parents: map<string, Chunk>, descriptions: map<string, string>, k: nat)
    requires ParseDocument(parsed).Ok?
    requires var images := ParseDocument(parsed).value.images.GetOr([]);
             k < |images| && forall j :: k < j < |images| ==> NameOf(images, j) != NameOf(images, k)
    ensures var images := ParseDocument(parsed).value.images.GetOr([]);
            var d := IndexSpec(sp, filePath, parsed, vision, uuid, index, children, parents, descriptions).descriptions;
            && (forall x :: x in d <==> x in descriptions || exists j :: 0 <= j < |images| && NameOf(images, j) == x)
            && d[NameOf(images, k)] == AnalyzeImage(vision(k))
  {
    var images := ParseDocument(parsed).value.images.GetOr([]);
    var descs := Analyses(vision, |images|);
    var d := IndexSpec(sp, filePath, parsed, vision, uuid, index, children, parents, descriptions).descriptions;
    assert d == Described(descriptions, images, descs, |images|);
    DescribedKeys(descriptions, images, descs, |images|);
    DescribedLatest(descriptions, images, descs, |images|, k);
    AllDescribed(images, descs, |images|);
  }

  /**
   * Every chart placeholder is replaced before chunking, failed analyses
   * included, provided no image name holds `[`, `]` or a newline and no
   * description holds `[`.
   */
  lemma ChunkedTextHasNoPlaceholder(markdown: string, images: seq<string>, vision: nat -> VisionReply)
    requires forall k :: 0 <= k < |images| ==> PlainName(NameOf(images, k))
    requires forall k :: 0 <= k < |images| ==> Lacks(AnalyzeImage(vision(k)), '[')
    ensures forall k :: 0 <= k < |images| ==>
              Gone(Injected(markdown, images, Analyses(vision, |images|), |images|), NameOf(images, k))
  {
    PlaceholdersReplaced(markdown, images, Analyses(vision, |images|), |images|);
  }

  /** The failure text of a vision call holds no `[`, so a failed call too removes its placeholder. */
  lemma FailureTextLacksBracket()
    ensures Lacks(AnalysisFailed, '[')
  {
  }

  /**
   * A document that yields no chunks leaves the previous document's index
   * in place next to an empty chunk list.  A search then finds nothing when
   * that index returns only real rows, and raises IndexError when it pads
   * its answer with -1 (the stale index holds fewer than `3 * top_k` rows):
   * the guard lets -1 through to `self.child_chunks[-1]` on the empty list.
   */
  lemma EmptyDocumentKeepsStaleIndex(sp: Splitters, filePath: string, status: int, body: string, vision: nat -> VisionReply,
                                     uuid: nat -> string, index: Option<seq<string>>, children: seq<Chunk>,
                                     parents: map<string, Chunk>, descriptions: map<string, string>,
                                     hits: seq<Hit>, topK: nat)
    requires !(400 <= status < 600)
    requires FaissLabels(hits)
    ensures var d := IndexSpec(sp, filePath, ParserAnswered(status, body, Some(ParseData(None, None))), vision, uuid,
                               index, children, parents, descriptions);
            && d == Indexed(Ok(()), index, [], map[], descriptions)
            && SearchOutcome(ChildFallback, hits, d.children, d.parents, topK)
               == if HasPadding(hits) then Err(IndexOutOfRange) else Ok([])
  {
    NoChunksRaisesOnPadding(ChildFallback, hits, map[], topK);
  }
}
