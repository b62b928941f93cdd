/**
 * The page-aware parent/child chunker (`DocumentChunker`).
 *
 * The text is cut at every `## Page N` marker; each non-blank stretch of
 * text is split into parent chunks, and each parent into child chunks.  The
 * text splitter is a parameter (`Splitters.split`); `uuid4()` is an
 * injective oracle whose k-th call in one run yields `uuid(k)`.
 */
module Chunking {
  import opened Wrappers
  import opened Strings
  import opened Chunks

  /** The size ceiling when the settings do not override it: 500 MiB of characters. */
  const MaxDocumentSizeChars: nat := 500 * 1024 * 1024

  const MarkerPrefix: string := "## Page "

  // ------------------------------------------------------ the page marker

  /** `PAGE_MARKER_PATTERN` matches at `i`: "## Page " then a digit. */
  predicate MarkerAt(s: string, i: nat) {
    i + 8 < |s| && s[i..i + 8] == MarkerPrefix && IsDigitChar(s[i + 8])
  }

  /** The number of consecutive digits starting at `i` (the greedy `\d+`). */
  function DigitRun(s: string, i: nat): (n: nat)
    requires i <= |s|
    ensures i + n <= |s|
    ensures forall j :: i <= j < i + n ==> IsDigitChar(s[j])
    ensures i + n == |s| || !IsDigitChar(s[i + n])
    decreases |s| - i
  {
    if i < |s| && IsDigitChar(s[i]) then 1 + DigitRun(s, i + 1) else 0
  }

  /** Where the marker that starts at `p` ends. */
  function MarkerEnd(s: string, p: nat): (e: nat)
    requires MarkerAt(s, p)
    ensures p + 9 <= e <= |s|
  {
    p + 8 + DigitRun(s, p + 8)
  }

  /** The leftmost marker at or after `i` (what `re.split` finds next). */
  function FirstMarker(s: string, i: nat): (r: Option<nat>)
    ensures r.Some? ==> i <= r.value && MarkerAt(s, r.value)
    ensures r.Some? ==> forall j :: i <= j < r.value ==> !MarkerAt(s, j)
    ensures r.None? ==> forall j :: i <= j ==> !MarkerAt(s, j)
    decreases |s| - i
  {
    if i >= |s| then None else if MarkerAt(s, i) then Some(i) else FirstMarker(s, i + 1)
  }

  /**
   * `PAGE_MARKER_PATTERN.split(s)`: because the pattern is one capture group,
   * the result alternates text and marker, starting and ending with text.
   */
  function SplitOnMarkers(s: string): (parts: seq<string>)
    ensures |parts| % 2 == 1
    decreases |s|
  {
    match FirstMarker(s, 0)
    case None => [s]
    case Some(p) =>
      var e := MarkerEnd(s, p);
      [s[..p], s[p..e]] + SplitOnMarkers(s[e..])
  }

  /** `part.rsplit(' ', 1)[-1]`: the text after the last space. */
  function LastField(part: string): string {
    part[LastIndexOf(part, ' ') + 1..]
  }

  /**
   * `int(part.rsplit(' ', 1)[-1])`, or None where `int` raises.  Only markers
   * cut out by `SplitOnMarkers` reach it, and for those it always succeeds
   * (`MarkerNumber`).
   */
  function ParsePageNumber(part: string): Option<int> {
    var f := LastField(part);
    if IsDigits(f) then Some(DigitsValue(f)) else None
  }

  // ---------------------------------------------------- page segments

  /** A non-blank stretch of text and the page it is attributed to. */
  datatype Segment = Segment(page: int, text: string)

  /** The `if content.strip()` guard: blank text contributes no segment. */
  function Keep(page: int, text: string): (r: seq<Segment>)
    ensures IsBlank(text) ==> r == []
    ensures !IsBlank(text) ==> r == [Segment(page, text)]
  {
    if IsBlank(text) then [] else [Segment(page, text)]
  }

  /**
   * What the `while i < n` loop of `process` hands to `_chunk_page_text`,
   * for the parts from some point on, given the current page.
   */
  function PageSegments(parts: seq<string>, page: int): seq<Segment>
    decreases |parts|
  {
    if parts == [] then []
    else if MarkerAt(parts[0], 0) then
      var p := ParsePageNumber(parts[0]).GetOr(page);
      if |parts| > 1 then Keep(p, parts[1]) + PageSegments(parts[2..], p) else []
    else Keep(page, parts[0]) + PageSegments(parts[1..], page)
  }

  /**
   * Reference page attribution, directly on the text: the stretch before the
   * first marker belongs to `page` (0 at the start of a document), and the
   * stretch after each marker belongs to the number that marker carries.
   */
  function Attribute(s: string, page: int): seq<Segment>
    decreases |s|
  {
    match FirstMarker(s, 0)
    case None => Keep(page, s)
    case Some(p) =>
      var e := MarkerEnd(s, p);
      Keep(page, s[..p]) + Attribute(s[e..], DigitsValue(s[p + 8..e]))
  }

  lemma FirstPartIsNotMarker(s: string)
    ensures !MarkerAt(SplitOnMarkers(s)[0], 0)
  {
    match FirstMarker(s, 0)
    case None =>
    case Some(p) =>
      if p > 8 {
        assert !MarkerAt(s, 0);
        assert s[..p][0..8] == s[0..8];
      }
  }

  lemma {:induction false} MarkerNumber(s: string, p: nat)
    requires MarkerAt(s, p)
    ensures ParsePageNumber(s[p..MarkerEnd(s, p)]) == Some(DigitsValue(s[p + 8..MarkerEnd(s, p)]))
  {
    var e := MarkerEnd(s, p);
    var m := s[p..e];
    assert m[7] == ' ' by { assert m[..8] == s[p..p + 8]; }
    var r := LastIndexOf(m, ' ');
    assert r >= 7;
    assert LastField(m) == s[p + 8..e];
  }

  /** Cutting the text with the regex and walking the parts attributes pages as `Attribute` does. */
  lemma {:induction false} SegmentsFollowMarkers(s: string, page: int)
    ensures PageSegments(SplitOnMarkers(s), page) == Attribute(s, page)
    decreases |s|
  {
    match FirstMarker(s, 0)
    case None =>
      assert !MarkerAt(s, 0);
      assert SplitOnMarkers(s) == [s];
    case Some(p) =>
      var e := MarkerEnd(s, p);
      var num := DigitsValue(s[p + 8..e]);
      assert Attribute(s, page) == Keep(page, s[..p]) + Attribute(s[e..], num);
      SegmentsAtMarker(s, page, p);
      SegmentsFollowMarkers(s[e..], num);
  }

  /** The walk over the parts of a text whose first marker is at `p`: the text before it, then the rest from that marker's page. */
  lemma SegmentsAtMarker(s: string, page: int, p: nat)
    requires FirstMarker(s, 0) == Some(p)
    ensures PageSegments(SplitOnMarkers(s), page)
            == Keep(page, s[..p]) + PageSegments(SplitOnMarkers(s[MarkerEnd(s, p)..]), DigitsValue(s[p + 8..MarkerEnd(s, p)]))
  {
    var e := MarkerEnd(s, p);
    var a, m, rest := s[..p], s[p..e], SplitOnMarkers(s[e..]);
    var num := DigitsValue(s[p + 8..e]);
    var parts := [a, m] + rest;
    assert SplitOnMarkers(s) == parts;
    FirstPartIsNotMarker(s);
    assert !MarkerAt(a, 0);
    assert parts[1..] == [m] + rest;
    assert MarkerAt(m, 0) by { assert m[0..8] == s[p..p + 8]; }
    MarkerNumber(s, p);
    assert ([m] + rest)[2..] == rest[1..];
    assert PageSegments([m] + rest, page) == Keep(num, rest[0]) + PageSegments(rest[1..], num);
    FirstPartIsNotMarker(s[e..]);
    assert PageSegments(rest, num) == Keep(num, rest[0]) + PageSegments(rest[1..], num);
  }

  // -------------------------------------------------- parents and children

  /** The two `RecursiveCharacterTextSplitter`s, as one splitting function and their settings. */
  datatype Splitters = Splitters(
    split: (string, nat, nat) -> seq<string>,
    childSize: nat, childOverlap: nat,
    parentSize: nat, parentOverlap: nat)
  {
    function ParentTexts(text: string): seq<string> { split(text, parentSize, parentOverlap) }
    function ChildTexts(text: string): seq<string> { split(text, childSize, childOverlap) }
  }

  /**
   * The chunker's running state: the child list and the parent map that
   * `_chunk_page_text` appends to, and how many `uuid4()` calls were made.
   */
  datatype Acc = Acc(children: seq<Chunk>, parentMap: map<string, Chunk>, next: nat)

  /** The parent chunk for the `idx`-th parent text of a page. */
  function ParentChunk(text: string, source: string, page: int, idx: nat, id: string): Chunk {
    Chunk(text, source, page, id, None, true, map["index" := idx])
  }

  /** A child chunk of `parent`. */
  function ChildChunk(text: string, parent: Chunk, id: string): Chunk {
    Chunk(text, parent.source, parent.page, id, Some(parent.chunkId), false, map[])
  }

  /** `cs` followed by the children of `parent` for the first `n` texts, the j-th taking `uuid(k + j)`. */
  function AddChildren(cs: seq<Chunk>, parent: Chunk, texts: seq<string>, n: nat, k: nat, uuid: nat -> string): (r: seq<Chunk>)
    requires n <= |texts|
    ensures |r| == |cs| + n
  {
    if n == 0 then cs
    else AddChildren(cs, parent, texts, n - 1, k, uuid) + [ChildChunk(texts[n - 1], parent, uuid(k + n - 1))]
  }

  /** One turn of the outer loop of `_chunk_page_text`: a parent and then its children. */
  function AddParent(sp: Splitters, acc: Acc, text: string, source: string, page: int, idx: nat, uuid: nat -> string): Acc {
    var parent := ParentChunk(text, source, page, idx, uuid(acc.next));
    var cts := sp.ChildTexts(text);
    Acc(AddChildren(acc.children, parent, cts, |cts|, acc.next + 1, uuid),
        acc.parentMap[parent.chunkId := parent],
        acc.next + 1 + |cts|)
  }

  /** `_chunk_page_text` after the first `n` parent texts `pts` of one page. */
  function PageAcc(sp: Splitters, acc: Acc, pts: seq<string>, n: nat, source: string, page: int, uuid: nat -> string): Acc
    requires n <= |pts|
  {
    if n == 0 then acc
    else AddParent(sp, PageAcc(sp, acc, pts, n - 1, source, page, uuid), pts[n - 1], source, page, n - 1, uuid)
  }

  /** `_chunk_page_text` on one segment. */
  function ChunkPage(sp: Splitters, acc: Acc, seg: Segment, source: string, uuid: nat -> string): Acc {
    var pts := sp.ParentTexts(seg.text);
    PageAcc(sp, acc, pts, |pts|, source, seg.page, uuid)
  }

  /** Every segment in turn, the ids continuing from one page to the next. */
  function ChunkSegments(sp: Splitters, acc: Acc, segs: seq<Segment>, source: string, uuid: nat -> string): Acc
    decreases |segs|
  {
    if segs == [] then acc
    else ChunkSegments(sp, ChunkPage(sp, acc, segs[0], source, uuid), segs[1..], source, uuid)
  }

  datatype ChunkError = DocumentTooLarge

  /** `process(text, source)`: `(child_chunks, parent_map)`, or the size-limit error. */
  function ProcessSpec(sp: Splitters, text: string, source: string, uuid: nat -> string)
    : Result<(seq<Chunk>, map<string, Chunk>), ChunkError>
  {
    if text == [] then Ok(([], map[]))
    else if |text| > MaxDocumentSizeChars then Err(DocumentTooLarge)
    else
      var o := ChunkSegments(sp, Acc([], map[], 0), Attribute(text, 0), Basename(source), uuid);
      Ok((o.children, o.parentMap))
  }

  /** One turn of the loop in `process`: which segment it yields and where it resumes. */
  lemma StepSegments(parts: seq<string>, i: nat, page: int)
    requires i < |parts|
    ensures var part := parts[i];
            var p := if MarkerAt(part, 0) then ParsePageNumber(part).GetOr(page) else page;
            var content := if !MarkerAt(part, 0) then part else if i + 1 < |parts| then parts[i + 1] else "";
            var j := if MarkerAt(part, 0) && i + 1 < |parts| then i + 2 else i + 1;
            PageSegments(parts[i..], page) == Keep(p, content) + PageSegments(parts[j..], p)
  {
    assert parts[i..][1..] == parts[i + 1..];
    if i + 1 < |parts| {
      assert parts[i..][2..] == parts[i + 2..];
    }
  }

  // ------------------------------------------------------------- the class

  class DocumentChunker {
    const splitters: Splitters

    constructor (split: (string, nat, nat) -> seq<string>,
                 childChunkSize: nat := 400, childChunkOverlap: nat := 50,
                 parentChunkSize: nat := 2000, parentChunkOverlap: nat := 200)
      ensures splitters == Splitters(split, childChunkSize, childChunkOverlap, parentChunkSize, parentChunkOverlap)
    {
      splitters := Splitters(split, childChunkSize, childChunkOverlap, parentChunkSize, parentChunkOverlap);
    }

    /** `process`: the loop over the regex parts, tracking the current page. */
    method Process(text: string, source: string, uuid: nat -> string)
      returns (r: Result<(seq<Chunk>, map<string, Chunk>), ChunkError>)
      ensures r == ProcessSpec(splitters, text, source, uuid)
    {
      if text == [] {
        return Ok(([], map[]));
      }
      if |text| > MaxDocumentSizeChars {
        return Err(DocumentTooLarge);
      }
      var filename := Basename(source);
      var parentMap: map<string, Chunk> := map[];
      var childChunks: seq<Chunk> := [];
      var next: nat := 0;
      ghost var goal := ChunkSegments(splitters, Acc([], map[], 0), PageSegments(SplitOnMarkers(text), 0), filename, uuid);

      var parts := SplitOnMarkers(text);
      var currentPage := 0;
      var i := 0;
      var n := |parts|;
      while i < n
        invariant 0 <= i <= n
        invariant ChunkSegments(splitters, Acc(childChunks, parentMap, next), PageSegments(parts[i..], currentPage), filename, uuid) == goal
      {
        ghost var i0, page0 := i, currentPage;
        var part := parts[i];
        // the text of this step: after a marker, the part that follows it
        var content: string;
        if MarkerAt(part, 0) {
          match ParsePageNumber(part) {
            case Some(p) => currentPage := p;
            case None => // malformed marker: keep the current page
          }
          if i + 1 < n {
            content := parts[i + 1];
            i := i + 2;
          } else {
            content := "";
            i := i + 1;
          }
        } else {
          content := part;
          i := i + 1;
        }
        StepSegments(parts, i0, page0);
        ghost var rest := PageSegments(parts[i..], currentPage);
        if !IsBlank(content) {
          ghost var seg := Segment(currentPage, content);
          assert PageSegments(parts[i0..], page0) == [seg] + rest;
          assert ([seg] + rest)[1..] == rest;
          ghost var acc0 := Acc(childChunks, parentMap, next);
          assert ChunkSegments(splitters, acc0, [seg] + rest, filename, uuid)
              == ChunkSegments(splitters, ChunkPage(splitters, acc0, seg, filename, uuid), rest, filename, uuid);
          parentMap, childChunks, next := ChunkPageText(content, filename, currentPage, parentMap, childChunks, next, uuid);
        } else {
          assert PageSegments(parts[i0..], page0) == [] + rest == rest;
        }
      }
      SegmentsFollowMarkers(text, 0);
      return Ok((childChunks, parentMap));
    }

    /**
     * `_chunk_page_text`: appends to the caller's child list and inserts into
     * its parent map; here the list, the map and the uuid counter go in and
     * come back out.
     */
    method ChunkPageText(text: string, source: string, page: int,
                         parentMap: map<string, Chunk>, childChunks: seq<Chunk>, next: nat,
                         uuid: nat -> string)
      returns (parentMap': map<string, Chunk>, childChunks': seq<Chunk>, next': nat)
      ensures Acc(childChunks', parentMap', next')
           == ChunkPage(splitters, Acc(childChunks, parentMap, next), Segment(page, text), source, uuid)
    {
      var sp := splitters;
      var parentDocs := sp.split(text, sp.parentSize, sp.parentOverlap);
      parentMap', childChunks', next' := parentMap, childChunks, next;
      for pIdx := 0 to |parentDocs|
        invariant Acc(childChunks', parentMap', next')
               == PageAcc(sp, Acc(childChunks, parentMap, next), parentDocs, pIdx, source, page, uuid)
      {
        var parentId := uuid(next');
        next' := next' + 1;
        var parent := ParentChunk(parentDocs[pIdx], source, page, pIdx, parentId);
        parentMap' := parentMap'[parentId := parent];

        var childDocs := sp.split(parentDocs[pIdx], sp.childSize, sp.childOverlap);
        ghost var k0, base := next', childChunks';
        for j := 0 to |childDocs|
          invariant next' == k0 + j
          invariant childChunks' == AddChildren(base, parent, childDocs, j, k0, uuid)
        {
          var childId := uuid(next');
          next' := next' + 1;
          var child := Chunk(childDocs[j], source, page, childId, Some(parentId), false, map[]);
          childChunks' := childChunks' + [child];
        }
      }
    }
  }
}
