/**
 * The parent-deduplicating search both `SmartRAG` classes run over the
 * neighbours FAISS returns for a query.  FAISS itself is not modelled: its
 * answer is the list of `(distance, row)` pairs, `3 * top_k` of them, in
 * ascending distance, with row -1 padding the list when the index holds
 * fewer rows than were asked for.
 */
module Retrieval {
  import opened Wrappers
  import opened Chunks

  /** One neighbour: its distance and the index row it labels (-1 for padding). */
  datatype Hit = Hit(distance: int, row: int)

  /** `(chunk, float(dist))`, one entry of what `search` returns. */
  datatype Scored = Scored(chunk: Chunk, distance: int)

  /**
   * How a neighbour is turned into a result.  `keepOrphans` is the child
   * fallback of pipeline.py (rag_pipeline.py drops such hits instead);
   * `skipPadding` adds the missing `0 <= idx` to the range guard.
   */
  datatype Variant = Variant(keepOrphans: bool, skipPadding: bool)

  /** pipeline.py as written */
  const ChildFallback := Variant(true, false)
  /** rag_pipeline.py as written */
  const DropOrphans := Variant(false, false)
  /** pipeline.py with the `0 <= idx` guard it evidently intends */
  const ChildFallbackGuarded := Variant(true, true)
  /** rag_pipeline.py with the `0 <= idx` guard it evidently intends */
  const DropOrphansGuarded := Variant(false, true)

  /** Python's `xs[i]`: a negative index counts from the end. */
  function PyIndex<T>(xs: seq<T>, i: int): (x: T)
    requires -|xs| <= i < |xs|
    ensures x in xs
    ensures 0 <= i ==> x == xs[i]
    ensures i < 0 ==> x == xs[|xs| + i]
  {
    if i < 0 then xs[|xs| + i] else xs[i]
  }

  /**
   * The labels FAISS can return for an index built from the `n` child
   * chunks: a row number or -1, and no -1 when there are no chunks at all
   * (indexing an empty list with -1 would raise).
   */
  predicate Labels(v: Variant, hits: seq<Hit>, n: nat) {
    forall i :: 0 <= i < |hits| ==> -1 <= hits[i].row && (v.skipPadding || 0 <= hits[i].row + n)
  }

  /** A neighbour after the range guard: the chunk it yields and the parent id it is deduplicated on. */
  datatype Candidate = Candidate(chunk: Chunk, distance: int, parentKey: Option<string>)

  /** The range guard of the loop (`idx < len(child_chunks)`, and `0 <= idx` when corrected). */
  predicate InRange(v: Variant, row: int, n: nat) {
    row < n && (v.skipPadding ==> 0 <= row)
  }

  /**
   * One neighbour: its child's parent when the child has a parent id that
   * is in the map, else the child itself when orphans are kept.
   */
  function Resolve(v: Variant, h: Hit, children: seq<Chunk>, pm: map<string, Chunk>): Option<Candidate>
    requires v.skipPadding || -|children| <= h.row
  {
    if !InRange(v, h.row, |children|) then None
    else
      var child := PyIndex(children, h.row);
      if HasParentId(child) && child.parentId.value in pm then
        Some(Candidate(pm[child.parentId.value], h.distance, child.parentId))
      else if v.keepOrphans then Some(Candidate(child, h.distance, None))
      else None
  }

  /** The candidates of the neighbours, in neighbour order. */
  function Candidates(v: Variant, hits: seq<Hit>, children: seq<Chunk>, pm: map<string, Chunk>): seq<Candidate>
    requires Labels(v, hits, |children|)
    decreases |hits|
  {
    if hits == [] then []
    else
      var rest := Candidates(v, hits[1..], children, pm);
      match Resolve(v, hits[0], children, pm)
      case None => rest
      case Some(c) => [c] + rest
  }

  /** Keeps a parent only the first time its id comes up; `seen` holds the ids already taken. */
  function Dedup(cs: seq<Candidate>, seen: set<string>): seq<Scored>
    decreases |cs|
  {
    if cs == [] then []
    else
      var head := Scored(cs[0].chunk, cs[0].distance);
      match cs[0].parentKey
      case None => [head] + Dedup(cs[1..], seen)
      case Some(k) =>
        if k in seen then Dedup(cs[1..], seen) else [head] + Dedup(cs[1..], seen + {k})
  }

  /** `s[:n]` */
  function Take<T>(s: seq<T>, n: nat): (r: seq<T>)
    ensures |r| <= n && |r| <= |s|
    ensures r == s[..|r|]
    ensures |s| <= n ==> r == s
    ensures n <= |s| ==> |r| == n
  {
    if |s| <= n then s else s[..n]
  }

  /** What the search loop returns for the neighbours `hits`. */
  function SearchSpec(v: Variant, hits: seq<Hit>, children: seq<Chunk>, pm: map<string, Chunk>, topK: nat): seq<Scored>
    requires Labels(v, hits, |children|)
  {
    Take(Dedup(Candidates(v, hits, children, pm), {}), topK)
  }

  /**
   * The loop of `search`: walks the neighbours, appends the parent (once per
   * parent id) or the fallback child, and stops as soon as `top_k` results
   * are collected.
   */
  method RankNeighbours(v: Variant, hits: seq<Hit>, children: seq<Chunk>, pm: map<string, Chunk>, topK: nat)
    returns (results: seq<Scored>)
    requires |hits| == 3 * topK && Labels(v, hits, |children|)
    ensures results == SearchSpec(v, hits, children, pm, topK)
  {
    results := [];
    var seen: set<string> := {};
    ghost var all := Dedup(Candidates(v, hits, children, pm), {});
    var i := 0;
    while i < |hits|
      invariant 0 <= i <= |hits|
      invariant results + Dedup(Candidates(v, hits[i..], children, pm), seen) == all
      invariant |results| <= topK
      invariant i < |hits| ==> |results| < topK
    {
      var h := hits[i];
      if InRange(v, h.row, |children|) {
        var child := PyIndex(children, h.row);
        if HasParentId(child) && child.parentId.value in pm {
          var key := child.parentId.value;
          if key !in seen {
            var x := Scored(pm[key], h.distance);
            StepTakes(v, hits, i, children, pm, seen, seen + {key}, x, results, all);
            results := results + [x];
            seen := seen + {key};
          } else {
            StepSkips(v, hits, i, children, pm, seen);
          }
        } else if v.keepOrphans {
          var x := Scored(child, h.distance);
          StepTakes(v, hits, i, children, pm, seen, seen, x, results, all);
          results := results + [x];
        } else {
          StepSkips(v, hits, i, children, pm, seen);
        }
        if |results| >= topK {
          assert results == all[..topK];
          return;
        }
      } else {
        StepSkips(v, hits, i, children, pm, seen);
      }
      i := i + 1;
    }
    assert hits[i..] == [];
  }

  /** The labels FAISS returns: a row number, or -1 for padding. */
  predicate FaissLabels(hits: seq<Hit>) {
    forall i :: 0 <= i < |hits| ==> -1 <= hits[i].row
  }

  predicate HasPadding(hits: seq<Hit>) {
    exists i :: 0 <= i < |hits| && hits[i].row < 0
  }

  /**
   * The loop as written raises IndexError: with no child chunks, the first
   * -1 label passes `idx < len(self.child_chunks)` and `self.child_chunks[-1]`
   * fails.  No label before it passes the guard, so nothing can have
   * stopped the loop first.
   */
  predicate RaisesIndexError(v: Variant, hits: seq<Hit>, n: nat) {
    !v.skipPadding && n == 0 && HasPadding(hits)
  }

  /** What stops a search: the IndexError above, or no index at all (the AttributeError of `None.search`). */
  datatype SearchError = IndexOutOfRange | NoIndex

  /** FAISS labels that do not make the loop raise are labels the loop can index. */
  lemma LabelsUnlessRaising(v: Variant, hits: seq<Hit>, n: nat)
    requires FaissLabels(hits) && !RaisesIndexError(v, hits, n)
    ensures Labels(v, hits, n)
  {
    forall i | 0 <= i < |hits| ensures v.skipPadding || 0 <= hits[i].row + n {
      if !v.skipPadding && n == 0 {
        assert !(hits[i].row < 0);
      }
    }
  }

  /** What `search` does with the neighbours: the IndexError, or the results of the loop. */
  function SearchOutcome(v: Variant, hits: seq<Hit>, children: seq<Chunk>, pm: map<string, Chunk>, topK: nat): Result<seq<Scored>, SearchError>
    requires FaissLabels(hits)
  {
    if RaisesIndexError(v, hits, |children|) then Err(IndexOutOfRange)
    else
      LabelsUnlessRaising(v, hits, |children|);
      Ok(SearchSpec(v, hits, children, pm, topK))
  }

  /** The search loop over FAISS's answer: it raises exactly as `SearchOutcome` says, and otherwise returns what `RankNeighbours` walks to. */
  method Walk(v: Variant, hits: seq<Hit>, children: seq<Chunk>, pm: map<string, Chunk>, topK: nat)
    returns (r: Result<seq<Scored>, SearchError>)
    requires |hits| == 3 * topK && FaissLabels(hits)
    ensures r == SearchOutcome(v, hits, children, pm, topK)
  {
    if RaisesIndexError(v, hits, |children|) {
      return Err(IndexOutOfRange);
    }
    LabelsUnlessRaising(v, hits, |children|);
    var results := RankNeighbours(v, hits, children, pm, topK);
    return Ok(results);
  }

  /** With the `0 <= idx` guard the loop never raises. */
  lemma GuardedNeverRaises(v: Variant, hits: seq<Hit>, children: seq<Chunk>, pm: map<string, Chunk>, topK: nat)
    requires FaissLabels(hits) && v.skipPadding
    ensures SearchOutcome(v, hits, children, pm, topK).Ok?
  {
  }

  /**
   * As written, a search with no child chunks fails exactly when FAISS
   * padded its answer, and otherwise finds nothing.
   */
  lemma NoChunksRaisesOnPadding(v: Variant, hits: seq<Hit>, pm: map<string, Chunk>, topK: nat)
    requires FaissLabels(hits) && !v.skipPadding
    ensures SearchOutcome(v, hits, [], pm, topK) == if HasPadding(hits) then Err(IndexOutOfRange) else Ok([])
  {
    if !HasPadding(hits) {
      LabelsUnlessRaising(v, hits, 0);
      NothingInRange(v, hits, [], pm);
    }
  }

  /** Neighbours that all fail the range guard give no candidates. */
  lemma {:induction false} NothingInRange(v: Variant, hits: seq<Hit>, children: seq<Chunk>, pm: map<string, Chunk>)
    requires Labels(v, hits, |children|)
    requires forall i :: 0 <= i < |hits| ==> !InRange(v, hits[i].row, |children|)
    ensures Candidates(v, hits, children, pm) == []
    decreases |hits|
  {
    if hits != [] {
      NothingInRange(v, hits[1..], children, pm);
    }
  }

  /** A loop turn that appends nothing leaves the remaining work as it was. */
  lemma StepSkips(v: Variant, hits: seq<Hit>, i: nat, children: seq<Chunk>, pm: map<string, Chunk>, seen: set<string>)
    requires Labels(v, hits, |children|) && i < |hits|
    requires match Resolve(v, hits[i], children, pm)
             case None => true
             case Some(c) => c.parentKey.Some? && c.parentKey.value in seen
    ensures Dedup(Candidates(v, hits[i..], children, pm), seen) == Dedup(Candidates(v, hits[i + 1..], children, pm), seen)
  {
    assert hits[i..][0] == hits[i] && hits[i..][1..] == hits[i + 1..];
    var rest := Candidates(v, hits[i + 1..], children, pm);
    match Resolve(v, hits[i], children, pm)
    case None =>
    case Some(c) =>
      assert ([c] + rest)[1..] == rest;
  }

  /** A loop turn that appends `x` moves it from the remaining work to the results. */
  lemma StepTakes(v: Variant, hits: seq<Hit>, i: nat, children: seq<Chunk>, pm: map<string, Chunk>, seen: set<string>, seen': set<string>,
                  x: Scored, results: seq<Scored>, all: seq<Scored>)
    requires Labels(v, hits, |children|) && i < |hits|
    requires match Resolve(v, hits[i], children, pm)
             case None => false
             case Some(c) =>
               && x == Scored(c.chunk, c.distance)
               && match c.parentKey
                  case None => seen' == seen
                  case Some(k) => k !in seen && seen' == seen + {k}
    requires results + Dedup(Candidates(v, hits[i..], children, pm), seen) == all
    ensures (results + [x]) + Dedup(Candidates(v, hits[i + 1..], children, pm), seen') == all
  {
    assert hits[i..][0] == hits[i] && hits[i..][1..] == hits[i + 1..];
    var rest := Candidates(v, hits[i + 1..], children, pm);
    var c := Resolve(v, hits[i], children, pm).value;
    assert ([c] + rest)[1..] == rest;
    var later := Dedup(rest, seen');
    assert Dedup([c] + rest, seen) == [x] + later;
    assert (results + [x]) + later == results + ([x] + later);
  }

  // ------------------------------------------------------------ properties

  /** The chunker's parent map: each parent chunk stored under its own id. */
  ghost predicate ParentsUnderOwnIds(pm: map<string, Chunk>) {
    forall k :: k in pm ==> pm[k].chunkId == k && pm[k].isParent
  }

  ghost predicate NoParentsAmong(children: seq<Chunk>) {
    forall i :: 0 <= i < |children| ==> !children[i].isParent
  }

  /** A candidate carries a key exactly when it is a parent, and the key is that parent's id. */
  ghost predicate Keyed(cs: seq<Candidate>) {
    forall i :: 0 <= i < |cs| ==>
      (cs[i].parentKey.Some? <==> cs[i].chunk.isParent)
      && (cs[i].parentKey.Some? ==> cs[i].chunk.chunkId == cs[i].parentKey.value)
  }

  /** No parent chunk occurs twice. */
  ghost predicate DistinctParents(r: seq<Scored>) {
    forall i, j :: 0 <= i < j < |r| && r[i].chunk.isParent && r[j].chunk.isParent ==>
      r[i].chunk.chunkId != r[j].chunk.chunkId
  }

  ghost predicate ParentsOutside(r: seq<Scored>, seen: set<string>) {
    forall i :: 0 <= i < |r| && r[i].chunk.isParent ==> r[i].chunk.chunkId !in seen
  }

  lemma {:induction false} CandidatesKeyed(v: Variant, hits: seq<Hit>, children: seq<Chunk>, pm: map<string, Chunk>)
    requires Labels(v, hits, |children|)
    requires ParentsUnderOwnIds(pm) && NoParentsAmong(children)
    ensures Keyed(Candidates(v, hits, children, pm))
    decreases |hits|
  {
    if hits != [] {
      CandidatesKeyed(v, hits[1..], children, pm);
      var rest := Candidates(v, hits[1..], children, pm);
      match Resolve(v, hits[0], children, pm)
      case None =>
      case Some(c) =>
        if c.parentKey.None? {
          assert !PyIndex(children, hits[0].row).isParent;
        }
        assert forall i :: 1 <= i < |[c] + rest| ==> ([c] + rest)[i] == rest[i - 1];
    }
  }

  lemma {:induction false} DedupDistinct(cs: seq<Candidate>, seen: set<string>)
    requires Keyed(cs)
    ensures DistinctParents(Dedup(cs, seen)) && ParentsOutside(Dedup(cs, seen), seen)
    decreases |cs|
  {
    if cs != [] {
      assert Keyed(cs[1..]) by {
        assert forall i :: 0 <= i < |cs[1..]| ==> cs[1..][i] == cs[i + 1];
      }
      var head := Scored(cs[0].chunk, cs[0].distance);
      match cs[0].parentKey
      case None =>
        DedupDistinct(cs[1..], seen);
        var r := Dedup(cs[1..], seen);
        assert !head.chunk.isParent;
        assert forall i :: 1 <= i < |[head] + r| ==> ([head] + r)[i] == r[i - 1];
      case Some(k) =>
        if k in seen {
          DedupDistinct(cs[1..], seen);
        } else {
          DedupDistinct(cs[1..], seen + {k});
          var r := Dedup(cs[1..], seen + {k});
          assert head.chunk.chunkId == k;
          assert forall i :: 1 <= i < |[head] + r| ==> ([head] + r)[i] == r[i - 1];
        }
    }
  }

  /**
   * With the parent map the chunker builds (each parent under its own id,
   * no parent among the children), a search never returns the same parent
   * twice, and never more than `top_k` results.
   */
  lemma SearchParentsOnce(v: Variant, hits: seq<Hit>, children: seq<Chunk>, pm: map<string, Chunk>, topK: nat)
    requires Labels(v, hits, |children|)
    requires ParentsUnderOwnIds(pm) && NoParentsAmong(children)
    ensures DistinctParents(SearchSpec(v, hits, children, pm, topK))
    ensures |SearchSpec(v, hits, children, pm, topK)| <= topK
  {
    CandidatesKeyed(v, hits, children, pm);
    DedupDistinct(Candidates(v, hits, children, pm), {});
  }

  function ChunksOf(cs: seq<Candidate>): set<Chunk> {
    set c | c in cs :: c.chunk
  }

  lemma {:induction false} DedupFromCandidates(cs: seq<Candidate>, seen: set<string>)
    ensures forall x :: x in Dedup(cs, seen) ==> x.chunk in ChunksOf(cs)
    decreases |cs|
  {
    if cs != [] {
      DedupFromCandidates(cs[1..], seen);
      DedupFromCandidates(cs[1..], seen + {cs[0].parentKey.GetOr("")});
      assert forall c :: c in cs[1..] ==> c in cs;
    }
  }

  lemma {:induction false} CandidatesFrom(v: Variant, hits: seq<Hit>, children: seq<Chunk>, pm: map<string, Chunk>)
    requires Labels(v, hits, |children|)
    ensures forall c :: c in ChunksOf(Candidates(v, hits, children, pm)) ==>
              c in pm.Values || (v.keepOrphans && c in children)
    decreases |hits|
  {
    if hits != [] {
      CandidatesFrom(v, hits[1..], children, pm);
    }
  }

  /** The rag_pipeline.py search returns parents only: every result is a value of the parent map. */
  lemma DroppedOrphansYieldParents(v: Variant, hits: seq<Hit>, children: seq<Chunk>, pm: map<string, Chunk>, topK: nat)
    requires Labels(v, hits, |children|) && !v.keepOrphans
    ensures forall x :: x in SearchSpec(v, hits, children, pm, topK) ==> x.chunk in pm.Values
  {
    CandidatesFrom(v, hits, children, pm);
    DedupFromCandidates(Candidates(v, hits, children, pm), {});
  }

  /** The pipeline.py search returns parents from the map or, failing that, the child chunks themselves. */
  lemma FallbackYieldsParentsOrChildren(v: Variant, hits: seq<Hit>, children: seq<Chunk>, pm: map<string, Chunk>, topK: nat)
    requires Labels(v, hits, |children|)
    ensures forall x :: x in SearchSpec(v, hits, children, pm, topK) ==>
              x.chunk in pm.Values || x.chunk in children
  {
    CandidatesFrom(v, hits, children, pm);
    DedupFromCandidates(Candidates(v, hits, children, pm), {});
  }

  /**
   * A neighbour whose child has no usable parent id yields that child, at
   * the neighbour's distance, in the pipeline.py search.
   */
  lemma OrphanFallsBack(v: Variant, hits: seq<Hit>, children: seq<Chunk>, pm: map<string, Chunk>)
    requires Labels(v, hits, |children|) && hits != [] && v.keepOrphans
    requires InRange(v, hits[0].row, |children|)
    requires var child := PyIndex(children, hits[0].row);
             !(HasParentId(child) && child.parentId.value in pm)
    ensures SearchSpec(v, hits, children, pm, 1)
            == [Scored(PyIndex(children, hits[0].row), hits[0].distance)]
  {
  }

  // ----------------------------------------------------------------- order

  ghost predicate HitsAscending(hits: seq<Hit>) {
    forall i, j :: 0 <= i < j < |hits| ==> hits[i].distance <= hits[j].distance
  }

  ghost predicate Ascending(r: seq<Scored>) {
    forall i, j :: 0 <= i < j < |r| ==> r[i].distance <= r[j].distance
  }

  ghost predicate CandidatesAscending(cs: seq<Candidate>) {
    forall i, j :: 0 <= i < j < |cs| ==> cs[i].distance <= cs[j].distance
  }

  lemma {:induction false} CandidatesAbove(v: Variant, hits: seq<Hit>, children: seq<Chunk>, pm: map<string, Chunk>, lo: int)
    requires Labels(v, hits, |children|)
    requires forall i :: 0 <= i < |hits| ==> lo <= hits[i].distance
    ensures forall c :: c in Candidates(v, hits, children, pm) ==> lo <= c.distance
    decreases |hits|
  {
    if hits != [] {
      CandidatesAbove(v, hits[1..], children, pm, lo);
    }
  }

  lemma {:induction false} CandidatesInOrder(v: Variant, hits: seq<Hit>, children: seq<Chunk>, pm: map<string, Chunk>)
    requires Labels(v, hits, |children|) && HitsAscending(hits)
    ensures CandidatesAscending(Candidates(v, hits, children, pm))
    decreases |hits|
  {
    if hits != [] {
      CandidatesInOrder(v, hits[1..], children, pm);
      CandidatesAbove(v, hits[1..], children, pm, hits[0].distance);
      var rest := Candidates(v, hits[1..], children, pm);
      match Resolve(v, hits[0], children, pm)
      case None =>
      case Some(c) =>
        assert forall i :: 1 <= i < |[c] + rest| ==> ([c] + rest)[i] == rest[i - 1];
    }
  }

  lemma {:induction false} DedupAbove(cs: seq<Candidate>, seen: set<string>, lo: int)
    requires forall c :: c in cs ==> lo <= c.distance
    ensures forall x :: x in Dedup(cs, seen) ==> lo <= x.distance
    decreases |cs|
  {
    if cs != [] {
      DedupAbove(cs[1..], seen, lo);
      DedupAbove(cs[1..], seen + {cs[0].parentKey.GetOr("")}, lo);
    }
  }

  lemma {:induction false} DedupInOrder(cs: seq<Candidate>, seen: set<string>)
    requires CandidatesAscending(cs)
    ensures Ascending(Dedup(cs, seen))
    decreases |cs|
  {
    if cs != [] {
      var seen' := seen + {cs[0].parentKey.GetOr("")};
      DedupInOrder(cs[1..], seen);
      DedupInOrder(cs[1..], seen');
      DedupAbove(cs[1..], seen, cs[0].distance);
      DedupAbove(cs[1..], seen', cs[0].distance);
      var head := Scored(cs[0].chunk, cs[0].distance);
      var r := Dedup(cs[1..], seen);
      var r' := Dedup(cs[1..], seen');
      assert forall i :: 1 <= i < |[head] + r| ==> ([head] + r)[i] == r[i - 1];
      assert forall i :: 1 <= i < |[head] + r'| ==> ([head] + r')[i] == r'[i - 1];
    }
  }

  /** The results come in the order of the neighbours: nearest first. */
  lemma SearchNearestFirst(v: Variant, hits: seq<Hit>, children: seq<Chunk>, pm: map<string, Chunk>, topK: nat)
    requires Labels(v, hits, |children|) && HitsAscending(hits)
    ensures Ascending(SearchSpec(v, hits, children, pm, topK))
  {
    CandidatesInOrder(v, hits, children, pm);
    DedupInOrder(Candidates(v, hits, children, pm), {});
  }

  // ------------------------------------------------------------- padding

  /** The neighbours that name a row of the index. */
  function RealCount(hits: seq<Hit>, n: nat): (k: nat)
    ensures k <= |hits|
  {
    if hits == [] then 0
    else (if 0 <= hits[0].row < n then 1 else 0) + RealCount(hits[1..], n)
  }

  lemma {:induction false} DedupShrinks(cs: seq<Candidate>, seen: set<string>)
    ensures |Dedup(cs, seen)| <= |cs|
    decreases |cs|
  {
    if cs != [] {
      DedupShrinks(cs[1..], seen);
      DedupShrinks(cs[1..], seen + {cs[0].parentKey.GetOr("")});
    }
  }

  lemma {:induction false} CandidatesAreReal(v: Variant, hits: seq<Hit>, children: seq<Chunk>, pm: map<string, Chunk>)
    requires Labels(v, hits, |children|) && v.skipPadding
    ensures |Candidates(v, hits, children, pm)| <= RealCount(hits, |children|)
    decreases |hits|
  {
    if hits != [] {
      CandidatesAreReal(v, hits[1..], children, pm);
    }
  }

  /**
   * With the `0 <= idx` guard the search never returns more results than
   * there were real neighbours: the -1 padding yields nothing.
   */
  lemma PaddingYieldsNothing(v: Variant, hits: seq<Hit>, children: seq<Chunk>, pm: map<string, Chunk>, topK: nat)
    requires Labels(v, hits, |children|) && v.skipPadding
    ensures |SearchSpec(v, hits, children, pm, topK)| <= RealCount(hits, |children|)
  {
    CandidatesAreReal(v, hits, children, pm);
    DedupShrinks(Candidates(v, hits, children, pm), {});
  }

  /** Neighbours that all lie outside the index (the -1 padding among them) name no row. */
  lemma {:induction false} PaddingIsNotReal(hits: seq<Hit>, n: nat)
    requires forall i :: 0 <= i < |hits| ==> !(0 <= hits[i].row < n)
    ensures RealCount(hits, n) == 0
    decreases |hits|
  {
    if hits != [] {
      PaddingIsNotReal(hits[1..], n);
    }
  }

  /**
   * pipeline.py as written: one child chunk and two results asked for, so
   * FAISS pads its six neighbours with five -1 labels, and the padding
   * brings the same child back a second time.
   */
  lemma PaddingRepeatsLastChild()
    ensures var c := NewChunk("text", "a.pdf", 1, "c");
            var pad := Hit(9, -1);
            var hits := [Hit(1, 0), pad, pad, pad, pad, pad];
            && RealCount(hits, 1) == 1
            && SearchSpec(ChildFallback, hits, [c], map[], 2) == [Scored(c, 1), Scored(c, 9)]
  {
    var c := NewChunk("text", "a.pdf", 1, "c");
    var pad := Hit(9, -1);
    var hits := [Hit(1, 0), pad, pad, pad, pad, pad];
    PaddingIsNotReal(hits[1..], 1);
    var first := Candidate(c, 1, None);
    var cand := Candidate(c, 9, None);
    assert hits[1..][1..] == hits[2..];
    assert Candidates(ChildFallback, hits, [c], map[]) == [first, cand] + Candidates(ChildFallback, hits[2..], [c], map[]);
    var cs := Candidates(ChildFallback, hits, [c], map[]);
    assert cs[..2] == [first, cand];
    assert Dedup(cs, {}) == [Scored(c, 1), Scored(c, 9)] + Dedup(cs[2..], {});
  }

  /**
   * rag_pipeline.py as written: one real neighbour, whose child belongs to
   * `p0`, yet the -1 padding also brings back `p1`, the parent of the last
   * child.
   */
  lemma PaddingAddsLastParent()
    ensures var c0 := Chunk("a", "a.pdf", 1, "c0", Some("p0"), false, map[]);
            var c1 := Chunk("b", "a.pdf", 2, "c1", Some("p1"), false, map[]);
            var p0 := Chunk("a", "a.pdf", 1, "p0", None, true, map["index" := 0]);
            var p1 := Chunk("b", "a.pdf", 2, "p1", None, true, map["index" := 0]);
            var pad := Hit(9, -1);
            var hits := [Hit(1, 0), pad, pad, pad, pad, pad];
            && RealCount(hits, 2) == 1
            && SearchSpec(DropOrphans, hits, [c0, c1], map["p0" := p0, "p1" := p1], 2) == [Scored(p0, 1), Scored(p1, 9)]
  {
    var c0 := Chunk("a", "a.pdf", 1, "c0", Some("p0"), false, map[]);
    var c1 := Chunk("b", "a.pdf", 2, "c1", Some("p1"), false, map[]);
    var p0 := Chunk("a", "a.pdf", 1, "p0", None, true, map["index" := 0]);
    var p1 := Chunk("b", "a.pdf", 2, "p1", None, true, map["index" := 0]);
    var pm := map["p0" := p0, "p1" := p1];
    var pad := Hit(9, -1);
    var hits := [Hit(1, 0), pad, pad, pad, pad, pad];
    PaddingIsNotReal(hits[1..], 2);
    var first := Candidate(p0, 1, Some("p0"));
    var cand := Candidate(p1, 9, Some("p1"));
    assert hits[1..][1..] == hits[2..];
    assert Candidates(DropOrphans, hits, [c0, c1], pm) == [first, cand] + Candidates(DropOrphans, hits[2..], [c0, c1], pm);
    var cs := Candidates(DropOrphans, hits, [c0, c1], pm);
    assert cs[1..][1..] == cs[2..];
    assert cs[0] == first && cs[1] == cand;
    assert Dedup(cs, {}) == [Scored(p0, 1)] + Dedup(cs[1..], {} + {"p0"});
    assert {} + {"p0"} == {"p0"};
    assert Dedup(cs[1..], {"p0"}) == [Scored(p1, 9)] + Dedup(cs[2..], {"p0"} + {"p1"});
  }
}
