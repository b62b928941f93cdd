/**
 * The `SmartRAG` class of rag_pipeline.py: the same indexing and search as
 * pipeline.py with stricter parsing, a vision step that skips failed
 * calls, a search that returns parents only, and `query_multiple`, which
 * ranks the results of several document pipelines together and asks the
 * chat client once.  The parser, vision and chat services, the embedding
 * model and FAISS are inputs, as in the pipeline.py model.
 */
module RagPipeline {
  import opened Wrappers
  import opened Strings
  import opened Chunks
  import opened Chunking
  import opened ChunkingProps
  import opened Retrieval
  import opened Services
  import opened Sorting
  import opened Indexing
  import opened Prompting
  import opened Storage

  // ------------------------------------------------------------- indexing

  /**
   * The parser call of `index_document`: any status but 200 raises with
   * the body; then the JSON must hold `text` and `images`.
   */
  function ParseReply(parsed: ParserResponse): (r: Result<(string, seq<string>), IndexingError>)
    ensures r.Ok? <==> parsed.ParserAnswered? && parsed.status == 200 && parsed.data.Some?
                       && parsed.data.value.text.Some? && parsed.data.value.images.Some?
    ensures r.Ok? ==> r.value == (parsed.data.value.text.value, parsed.data.value.images.value)
    ensures parsed.ParserAnswered? && parsed.status != 200 ==> r == Err(ParserFailed("Parser failed: " + parsed.body))
  {
    match parsed
    case ParserRaised(m) => Err(ParserFailed(m))
    case ParserAnswered(status, body, data) =>
      if status != 200 then Err(ParserFailed("Parser failed: " + body))
      else if data.None? then Err(NotJson)
      else if data.value.text.None? then Err(MissingKey("text"))
      else if data.value.images.None? then Err(MissingKey("images"))
      else Ok((data.value.text.value, data.value.images.value))
  }

  /**
   * The outcome of each vision call: None when the request or its JSON
   * decoding raised (the image is skipped), else the description, "" when
   * the answer has none.
   */
  function Descriptions(vision: nat -> VisionReply, n: nat): (ds: seq<Option<string>>)
    ensures |ds| == n
    ensures forall k :: 0 <= k < n ==> (ds[k].None? <==> vision(k).Err?)
    ensures forall k :: 0 <= k < n && vision(k).Ok? ==> ds[k] == Some(vision(k).value.GetOr(""))
  {
    seq(n, (k: int) requires 0 <= k < n => match vision(k) case Err(_) => None case Ok(d) => Some(d.GetOr("")))
  }

  /**
   * `index_document(file_path)` from the state `index`, `children`,
   * `parents`, `descriptions`: a parser failure changes nothing; the
   * described images are recorded and their placeholders replaced; then
   * the chunker's result becomes the state and the index is always rebuilt.
   */
  function IndexSpec(sp: Splitters, filePath: string, parsed: ParserResponse, vision: nat -> VisionReply, uuid: nat -> string,
                     index: Option<seq<string>>, children: seq<Chunk>, parents: map<string, Chunk>,
                     descriptions: map<string, string>): Indexed
  {
    match ParseReply(parsed)
    case Err(e) => Indexed(Err(e), index, children, parents, descriptions)
    case Ok((text, images)) =>
      var descs := Descriptions(vision, |images|);
      var descriptions' := Described(descriptions, images, descs, |images|);
      match ProcessSpec(sp, Injected(text, images, descs, |images|), filePath, uuid)
      case Err(_) => Indexed(Err(IndexingError.DocumentTooLarge), index, children, parents, descriptions')
      case Ok((cs, pm)) => Indexed(Ok(()), Some(Texts(cs)), cs, pm, descriptions')
  }

  /**
   * The vision step of `index_document`: each image whose call succeeds is
   * recorded under its file name and its placeholder replaced; a call that
   * raises leaves both as they were.
   */
  method DescribeCharts(markdown: string, images: seq<string>, descriptions: map<string, string>, vision: nat -> VisionReply)
    returns (text: string, descriptions': map<string, string>)
    ensures text == Injected(markdown, images, Descriptions(vision, |images|), |images|)
    ensures descriptions' == Described(descriptions, images, Descriptions(vision, |images|), |images|)
  {
    ghost var descs := Descriptions(vision, |images|);
    text, descriptions' := markdown, descriptions;
    for k := 0 to |images|
      invariant text == Injected(markdown, images, descs, k)
      invariant descriptions' == Described(descriptions, images, descs, k)
    {
      var fname := Basename(images[k]);
      match vision(k)
      case Err(_) =>
        assert descs[k] == None;
      case Ok(d) =>
        var desc := d.GetOr("");
        assert descs[k] == Some(desc) && NameOf(images, k) == fname;
        descriptions' := descriptions'[fname := desc];
        text := Replace(text, Placeholder(fname), VisualBlock(fname, desc));
    }
  }

  /** A described image's placeholder is gone; a failed image's placeholder stays, unless another image of its name was described. */
  lemma FailedChartKeepsPlaceholder(markdown: string, images: seq<string>, vision: nat -> VisionReply, g: string)
    requires forall k :: 0 <= k < |images| ==> PlainName(NameOf(images, k))
    requires forall k :: 0 <= k < |images| && vision(k).Ok? ==> Lacks(vision(k).value.GetOr(""), '[')
    requires PlainName(g) && Present(markdown, g)
    ensures var text := Injected(markdown, images, Descriptions(vision, |images|), |images|);
            && (forall k :: 0 <= k < |images| && vision(k).Ok? ==> Gone(text, NameOf(images, k)))
            && ((forall k :: 0 <= k < |images| && NameOf(images, k) == g ==> vision(k).Err?) ==> Present(text, g))
  {
    var descs := Descriptions(vision, |images|);
    PlaceholdersReplaced(markdown, images, descs, |images|);
    if forall k :: 0 <= k < |images| && NameOf(images, k) == g ==> vision(k).Err? {
      UndescribedPlaceholderStays(markdown, images, descs, |images|, g);
    }
  }

  // ----------------------------------------------------------- persistence

  /** `f"data/chunks/{doc_id}_parents.pkl"` */
  function ParentsFileOf(docId: string): string {
    "data/chunks/" + docId + "_parents.pkl"
  }

  /**
   * The parents path `load_state` infers from a chunks path: the id is
   * what follows the first `_` of the file name, up to its first `.`; None
   * when the file name holds no `_` (an IndexError).
   */
  function ParentsPathOf(chunksPath: string): Option<string> {
    var parts := SplitOn(Basename(chunksPath), '_');
    if |parts| < 2 then None
    else
      var docId := SplitOn(parts[1], '.')[0];
      Some(PathJoin(Dirname(chunksPath), docId + "_parents.pkl"))
  }

  datatype RagLoadError = StateNotLoaded(message: string) | NoDocId | Unreadable(path: string)

  /**
   * `load_state(faiss_path, chunks_path)`, given what `load_rag_state`
   * returned: the index and chunks are replaced, then the parent map when
   * the inferred parents file exists.
   */
  function LoadSpec(stored: Result<(seq<string>, seq<Chunk>), string>, chunksPath: string, files: Files,
                    index: Option<seq<string>>, children: seq<Chunk>, parents: map<string, Chunk>): Loaded<RagLoadError>
  {
    match stored
    case Err(m) => Loaded(index, children, parents, Err(StateNotLoaded(m)))
    case Ok((texts, chunks)) =>
      match ParentsPathOf(chunksPath)
      case None => Loaded(Some(texts), chunks, parents, Err(NoDocId))
      case Some(pp) =>
        if pp !in files then Loaded(Some(texts), chunks, parents, Ok(()))
        else if !files[pp].ParentsFile? then Loaded(Some(texts), chunks, parents, Err(Unreadable(pp)))
        else Loaded(Some(texts), chunks, files[pp].parents, Ok(()))
  }

  /** A slash-free file name under `data/chunks` has that directory and that base name. */
  lemma UnderChunksDir(name: string)
    requires name != [] && forall j :: 0 <= j < |name| ==> name[j] != '/'
    ensures Basename("data/chunks/" + name) == name && Dirname("data/chunks/" + name) == "data/chunks"
  {
    assert !StartsWith(name, "/") by { assert name[..1][0] == name[0]; }
    assert PathJoin("data/chunks", name) == "data/chunks/" + name;
    BasenameOfJoin("data/chunks", name);
  }

  /** The id of `<tag>_<id>.<ext>`: the text after the `_`, up to the `.`. */
  lemma IdOfChunksName(tag: string, id: string, ext: string)
    requires forall j :: 0 <= j < |tag| ==> tag[j] != '_'
    requires forall j :: 0 <= j < |id| ==> id[j] != '_' && id[j] != '.'
    requires forall j :: 0 <= j < |ext| ==> ext[j] != '_'
    ensures var parts := SplitOn(tag + "_" + id + "." + ext, '_');
            |parts| == 2 && SplitOn(parts[1], '.')[0] == id
  {
    var rest := id + "." + ext;
    assert tag + "_" + id + "." + ext == tag + ['_'] + rest;
    SplitOnFirst(tag, rest, '_');
    assert rest == id + ['.'] + ext;
    assert forall j :: 0 <= j < |rest| ==> rest[j] != '_';
    SplitOnAbsent(rest, '_');
    SplitOnFirst(id, ext, '.');
  }

  lemma ParentsUnderChunksDir(id: string)
    requires forall j :: 0 <= j < |id| ==> id[j] != '/'
    ensures PathJoin("data/chunks", id + "_parents.pkl") == ParentsFileOf(id)
  {
    var file := id + "_parents.pkl";
    assert !StartsWith(file, "/") by {
      if id != [] { assert file[..1][0] == id[0]; } else { assert file[..1][0] == '_'; }
    }
  }

  /**
   * A chunks file `data/chunks/<tag>_<id>.<ext>` leads `load_state` to
   * the parents file `save_state(id)` writes, when the tag and extension
   * hold no `_` or `/` and the id no `_`, `.` or `/`.
   */
  lemma ParentsFoundAfterSave(tag: string, id: string, ext: string)
    requires forall j :: 0 <= j < |tag| ==> tag[j] != '_' && tag[j] != '/'
    requires forall j :: 0 <= j < |id| ==> id[j] != '_' && id[j] != '.' && id[j] != '/'
    requires forall j :: 0 <= j < |ext| ==> ext[j] != '_' && ext[j] != '/'
    ensures ParentsPathOf("data/chunks/" + tag + "_" + id + "." + ext) == Some(ParentsFileOf(id))
  {
    var name := tag + "_" + id + "." + ext;
    assert "data/chunks/" + tag + "_" + id + "." + ext == "data/chunks/" + name;
    assert forall j :: 0 <= j < |name| ==> name[j] != '/';
    UnderChunksDir(name);
    IdOfChunksName(tag, id, ext);
    ParentsUnderChunksDir(id);
  }

  /** The parents file is written at the path `load_state` infers, as in `ParentsFoundAfterSave`. */
  lemma SaveThenLoadParents(tag: string, id: string, ext: string, parents: map<string, Chunk>, files: Files,
                            texts: seq<string>, chunks: seq<Chunk>,
                            index0: Option<seq<string>>, children0: seq<Chunk>, parents0: map<string, Chunk>)
    requires forall j :: 0 <= j < |tag| ==> tag[j] != '_' && tag[j] != '/'
    requires forall j :: 0 <= j < |id| ==> id[j] != '_' && id[j] != '.' && id[j] != '/'
    requires forall j :: 0 <= j < |ext| ==> ext[j] != '_' && ext[j] != '/'
    ensures LoadSpec(Ok((texts, chunks)), "data/chunks/" + tag + "_" + id + "." + ext,
                     files[ParentsFileOf(id) := ParentsFile(parents)], index0, children0, parents0)
            == Loaded(Some(texts), chunks, parents, Ok(()))
  {
    ParentsFoundAfterSave(tag, id, ext);
  }

  // ---------------------------------------------------------- the ranking

  predicate DistanceLe(a: Scored, b: Scored) {
    a.distance <= b.distance
  }

  lemma DistanceOrder()
    ensures TotalPreorder(DistanceLe)
  {
  }

  /** `all_results.sort(key=distance)` then `[:top_k]`. */
  function Ranked(all: seq<Scored>, topK: nat): seq<Scored> {
    Take(SortBy(all, DistanceLe), topK)
  }

  /** In a list sorted by distance, nothing after position `n` is nearer than anything before it. */
  lemma KeptBeforeDropped(sorted: seq<Scored>, n: nat)
    requires SortedBy(sorted, DistanceLe) && n <= |sorted|
    ensures forall x, y :: x in sorted[..n] && y in sorted[n..] ==> x.distance <= y.distance
  {
    forall x, y | x in sorted[..n] && y in sorted[n..] ensures x.distance <= y.distance {
      var i :| 0 <= i < n && sorted[i] == x;
      var j :| n <= j < |sorted| && sorted[j] == y;
      assert DistanceLe(sorted[i], sorted[j]);
    }
  }

  /**
   * The global ranking keeps the `top_k` nearest results in ascending
   * distance: it is drawn from the gathered results, and no dropped result
   * is nearer than a kept one.
   */
  lemma RankedNearest(all: seq<Scored>, topK: nat)
    ensures var r := Ranked(all, topK);
            && |r| == (if |all| < topK then |all| else topK)
            && (forall i, j :: 0 <= i < j < |r| ==> r[i].distance <= r[j].distance)
            && multiset(r) <= multiset(all)
            && (forall x, y :: x in r && y in multiset(all) - multiset(r) ==> x.distance <= y.distance)
  {
    DistanceOrder();
    var sorted := SortBy(all, DistanceLe);
    SortBySorts(all, DistanceLe);
    var r := Ranked(all, topK);
    var n := |r|;
    assert r == sorted[..n];
    assert sorted == sorted[..n] + sorted[n..];
    assert multiset(all) - multiset(r) == multiset(sorted[n..]);
    KeptBeforeDropped(sorted, n);
  }

  // ------------------------------------------------------------ the class

  /** One entry of `results`: `{"text", "source", "page"}` of a ranked chunk. */
  datatype Row = Row(text: string, source: string, page: int)

  function Rows(rs: seq<Scored>): (rows: seq<Row>)
    ensures |rows| == |rs|
    ensures forall i :: 0 <= i < |rs| ==> rows[i] == Row(rs[i].chunk.text, rs[i].chunk.source, rs[i].chunk.page)
  {
    seq(|rs|, (i: int) requires 0 <= i < |rs| => Row(rs[i].chunk.text, rs[i].chunk.source, rs[i].chunk.page))
  }

  /** What `query_multiple` returns: the answer (None for a null message content) and the rows, or `{"error"}`. */
  datatype QueryResult = Answer(response: Option<string>, results: seq<Row>) | Failure(error: string)

  /** The prompt sent to the chat client, and the result. */
  datatype Query = Query(prompt: string, result: QueryResult)

  /**
   * `query_multiple` on ranked results `top`, the chat client answering
   * `reply` (the message content, or the exception's text).
   */
  function QuerySpec(question: string, top: seq<Scored>, reply: Result<Option<string>, string>): Query {
    Query(AnswerPrompt(question, ContextString(top)),
          match reply
          case Ok(answer) => Answer(answer, Rows(top))
          case Err(e) => Failure(e))
  }

  class SmartRag {
    const outputDir: Option<string>
    const visionModelName: string
    const chunker: DocumentChunker
    /** The FAISS index, as the child texts it embeds; None until one is built or loaded. */
    var index: Option<seq<string>>
    var childChunks: seq<Chunk>
    var parentMap: map<string, Chunk>
    var chartDescriptions: map<string, string>

    /** `SmartRAG(output_dir, vision_model_name)`: a default chunker and an empty state. */
    constructor (split: (string, nat, nat) -> seq<string>, outputDir: Option<string>, visionModelName: string := "Moondream2")
      ensures this.outputDir == outputDir && this.visionModelName == visionModelName
      ensures chunker.splitters == Splitters(split, 400, 50, 2000, 200)
      ensures index == None && childChunks == [] && parentMap == map[] && chartDescriptions == map[]
    {
      this.outputDir := outputDir;
      this.visionModelName := visionModelName;
      chunker := new DocumentChunker(split);
      index := None;
      childChunks := [];
      parentMap := map[];
      chartDescriptions := map[];
    }

    /** `index_document(file_path)`. */
    method IndexDocument(filePath: string, parsed: ParserResponse, vision: nat -> VisionReply, uuid: nat -> string)
      returns (r: Result<(), IndexingError>)
      modifies this
      ensures Indexed(r, index, childChunks, parentMap, chartDescriptions)
              == IndexSpec(chunker.splitters, filePath, parsed, vision, uuid,
                           old(index), old(childChunks), old(parentMap), old(chartDescriptions))
    {
      var reply := ParseReply(parsed);
      if reply.Err? {
        return Err(reply.error);
      }
      var markdown, images := reply.value.0, reply.value.1;
      var text, descriptions := DescribeCharts(markdown, images, chartDescriptions, vision);
      chartDescriptions := descriptions;
      var processed := chunker.Process(text, filePath, uuid);
      if processed.Err? {
        return Err(IndexingError.DocumentTooLarge);
      }
      childChunks, parentMap := processed.value.0, processed.value.1;
      index := Some(Texts(childChunks));
      r := Ok(());
    }

    /**
     * `search`: the deduplicating walk over the `3 * top_k` neighbours,
     * parents only, with the guard as written, `idx < len(self.child_chunks)`.
     * There is no check for a missing index: `self.index.search` then raises.
     */
    method Search(hits: seq<Hit>, topK: nat) returns (r: Result<seq<Scored>, SearchError>)
      requires index.Some? ==> |hits| == 3 * topK
      requires FaissLabels(hits)
      ensures r == Searched(this, hits, topK)
    {
      if index.None? {
        return Err(NoIndex);
      }
      r := Walk(DropOrphans, hits, childChunks, parentMap, topK);
    }

    /** `save_state(doc_id)`, as far as this class writes: the parent map. */
    method SaveState(docId: string, files: Files) returns (files': Files)
      ensures files' == files[ParentsFileOf(docId) := ParentsFile(parentMap)]
    {
      files' := files[ParentsFileOf(docId) := ParentsFile(parentMap)];
    }

    /** `load_state(faiss_path, chunks_path)`, given what `load_rag_state` returned. */
    method LoadState(faissPath: string, chunksPath: string, stored: Result<(seq<string>, seq<Chunk>), string>, files: Files)
      returns (r: Result<(), RagLoadError>)
      modifies this
      ensures Loaded(index, childChunks, parentMap, r)
              == LoadSpec(stored, chunksPath, files, old(index), old(childChunks), old(parentMap))
    {
      if stored.Err? {
        return Err(StateNotLoaded(stored.error));
      }
      index, childChunks := Some(stored.value.0), stored.value.1;
      var parts := SplitOn(Basename(chunksPath), '_');
      if |parts| < 2 {
        return Err(NoDocId);
      }
      var docId := SplitOn(parts[1], '.')[0];
      var parentPath := PathJoin(Dirname(chunksPath), docId + "_parents.pkl");
      if parentPath in files {
        if !files[parentPath].ParentsFile? {
          return Err(Unreadable(parentPath));
        }
        parentMap := files[parentPath].parents;
      }
      r := Ok(());
    }

    /**
     * `query_multiple(question, pipelines, top_k)`: three results from
     * each pipeline, ranked together by distance, cut to `top_k`, and one
     * prompt to the chat client.  The searches run outside the `try`, so
     * the first one that raises ends the call with its exception.
     */
    method QueryMultiple(question: string, pipelines: seq<SmartRag>, hits: seq<seq<Hit>>,
                         reply: Result<Option<string>, string>, topK: nat := 5)
      returns (q: Result<Query, SearchError>)
      requires |hits| == |pipelines|
      requires forall k :: 0 <= k < |pipelines| ==> FaissLabels(hits[k])
      requires forall k :: 0 <= k < |pipelines| && pipelines[k].index.Some? ==> |hits[k]| == 9
      ensures q == match Gathered(pipelines, hits, |pipelines|)
                   case Err(e) => Err(e)
                   case Ok(all) => Ok(QuerySpec(question, Ranked(all, topK), reply))
    {
      var all: seq<Scored> := [];
      for k := 0 to |pipelines|
        invariant Gathered(pipelines, hits, k) == Ok(all)
      {
        var found := pipelines[k].Search(hits[k], 3);
        if found.Err? {
          GatheredFailurePersists(pipelines, hits, k + 1, |pipelines|);
          return Err(found.error);
        }
        all := all + found.value;
      }
      var top := Take(SortBy(all, DistanceLe), topK);
      var context := BuildContext(top);
      var prompt := AnswerPrompt(question, context);
      match reply
      case Ok(answer) =>
        q := Ok(Query(prompt, Answer(answer, Rows(top))));
      case Err(e) =>
        q := Ok(Query(prompt, Failure(e)));
    }
  }

  /** What `p.search(question, top_k)` does, given FAISS's answer: AttributeError without an index, else the walk as written. */
  function Searched(p: SmartRag, hits: seq<Hit>, topK: nat): Result<seq<Scored>, SearchError>
    reads p
    requires FaissLabels(hits)
  {
    if p.index.None? then Err(NoIndex) else SearchOutcome(DropOrphans, hits, p.childChunks, p.parentMap, topK)
  }

  /** The results of the first `n` pipelines, three each at most, pipeline after pipeline, or the first search's exception. */
  function Gathered(ps: seq<SmartRag>, hits: seq<seq<Hit>>, n: nat): Result<seq<Scored>, SearchError>
    reads ps
    requires n <= |ps| == |hits|
    requires forall k :: 0 <= k < |ps| ==> FaissLabels(hits[k])
  {
    if n == 0 then Ok([])
    else
      match Gathered(ps, hits, n - 1)
      case Err(e) => Err(e)
      case Ok(all) =>
        match Searched(ps[n - 1], hits[n - 1], 3)
        case Err(e) => Err(e)
        case Ok(found) => Ok(all + found)
  }

  /** Once a search has raised, later pipelines change nothing: the exception propagates. */
  lemma {:induction false} GatheredFailurePersists(ps: seq<SmartRag>, hits: seq<seq<Hit>>, m: nat, n: nat)
    requires m <= n <= |ps| == |hits|
    requires forall k :: 0 <= k < |ps| ==> FaissLabels(hits[k])
    requires Gathered(ps, hits, m).Err?
    ensures Gathered(ps, hits, n) == Gathered(ps, hits, m)
    decreases n
  {
    if n > m {
      GatheredFailurePersists(ps, hits, m, n - 1);
    }
  }

  /** A search fails exactly when some pipeline has no index, or has no child chunks and FAISS padded its answer. */
  lemma {:induction false} GatheredFails(ps: seq<SmartRag>, hits: seq<seq<Hit>>, n: nat)
    requires n <= |ps| == |hits|
    requires forall k :: 0 <= k < |ps| ==> FaissLabels(hits[k])
    ensures Gathered(ps, hits, n).Err? <==>
            exists k :: 0 <= k < n && (ps[k].index.None? || RaisesIndexError(DropOrphans, hits[k], |ps[k].childChunks|))
  {
    if n > 0 {
      GatheredFails(ps, hits, n - 1);
    }
  }

  /** Every gathered result is a parent chunk of one of the pipelines, and each pipeline gives three at most. */
  lemma {:induction false} GatheredParents(ps: seq<SmartRag>, hits: seq<seq<Hit>>, n: nat)
    requires n <= |ps| == |hits|
    requires forall k :: 0 <= k < |ps| ==> FaissLabels(hits[k])
    ensures Gathered(ps, hits, n).Ok? ==> |Gathered(ps, hits, n).value| <= 3 * n
    ensures Gathered(ps, hits, n).Ok? ==>
              forall x :: x in Gathered(ps, hits, n).value ==> exists k :: 0 <= k < n && x.chunk in ps[k].parentMap.Values
  {
    if n > 0 {
      GatheredParents(ps, hits, n - 1);
      var k := n - 1;
      if ps[k].index.Some? && !RaisesIndexError(DropOrphans, hits[k], |ps[k].childChunks|) {
        LabelsUnlessRaising(DropOrphans, hits[k], |ps[k].childChunks|);
        DroppedOrphansYieldParents(DropOrphans, hits[k], ps[k].childChunks, ps[k].parentMap, 3);
      }
    }
  }

  /**
   * When no search raises, `query_multiple` answers from parent chunks
   * only, at most `top_k` of them, nearest first, and the prompt holds
   * their blocks in that order.
   */
  lemma QueryAnswersFromParents(question: string, ps: seq<SmartRag>, hits: seq<seq<Hit>>,
                                reply: Result<Option<string>, string>, topK: nat)
    requires |ps| == |hits|
    requires forall k :: 0 <= k < |ps| ==> FaissLabels(hits[k])
    requires Gathered(ps, hits, |ps|).Ok?
    ensures var top := Ranked(Gathered(ps, hits, |ps|).value, topK);
            && |top| <= topK && |top| <= 3 * |ps|
            && (forall i, j :: 0 <= i < j < |top| ==> top[i].distance <= top[j].distance)
            && (forall x :: x in top ==> exists k :: 0 <= k < |ps| && x.chunk in ps[k].parentMap.Values)
            && QuerySpec(question, top, reply).prompt == AnswerPrompt(question, ContextString(top))
            && (reply.Ok? ==> QuerySpec(question, top, reply).result.results == Rows(top))
  {
    var all := Gathered(ps, hits, |ps|).value;
    GatheredParents(ps, hits, |ps|);
    RankedNearest(all, topK);
    var top := Ranked(all, topK);
    forall x | x in top ensures exists k :: 0 <= k < |ps| && x.chunk in ps[k].parentMap.Values {
      assert x in multiset(top);
      assert x in multiset(all);
    }
  }
}
