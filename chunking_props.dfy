/**
 * What the chunker guarantees about its output: every child chunk points at
 * a parent chunk that is in the parent map, on the same page of the same
 * file, and was cut from that parent's text; every parent map entry is a
 * parent chunk stored under its own id.  These hold as long as `uuid4()`
 * never repeats an id.
 */
module ChunkingProps {
  import opened Wrappers
  import opened Strings
  import opened Chunks
  import opened Chunking

  /** The ids handed out by the first `n` calls. */
  ghost function Issued(uuid: nat -> string, n: nat): set<string> {
    set j: nat | j < n :: uuid(j)
  }

  /** The `n`-th call of `uuid4()` returns an id not returned before. */
  ghost predicate FreshAt(uuid: nat -> string, n: nat) {
    uuid(n) !in Issued(uuid, n)
  }

  /** `uuid4()` never returns the same id twice in one run. */
  ghost predicate Injective(uuid: nat -> string) {
    forall n: nat :: FreshAt(uuid, n)
  }

  /** A parent map entry as `_chunk_page_text` writes it. */
  ghost predicate GoodParent(pm: map<string, Chunk>, id: string, source: string)
    requires id in pm
  {
    var p := pm[id];
    p.chunkId == id && p.isParent && p.parentId == None && p.source == source && "index" in p.metadata
  }

  /** A child chunk whose parent is in `pm`, on its page, and whose text the child splitter cut from the parent's. */
  ghost predicate LinkedChild(sp: Splitters, pm: map<string, Chunk>, c: Chunk, source: string) {
    && !c.isParent && c.source == source
    && c.parentId.Some? && c.parentId.value in pm
    && pm[c.parentId.value].page == c.page
    && c.text in sp.ChildTexts(pm[c.parentId.value].text)
  }

  ghost predicate Good(sp: Splitters, acc: Acc, source: string, uuid: nat -> string) {
    && (forall id :: id in acc.parentMap ==> GoodParent(acc.parentMap, id, source) && id in Issued(uuid, acc.next))
    && (forall c :: c in acc.children ==> LinkedChild(sp, acc.parentMap, c, source))
  }

  lemma IssuedGrows(uuid: nat -> string, m: nat, n: nat)
    requires m <= n
    ensures Issued(uuid, m) <= Issued(uuid, n)
  {
  }

  /** `Injective` is what its name says. */
  lemma InjectiveMeansDistinct(uuid: nat -> string, i: nat, j: nat)
    requires Injective(uuid) && i != j
    ensures uuid(i) != uuid(j)
  {
    if i < j {
      assert FreshAt(uuid, j);
      assert uuid(i) in Issued(uuid, j);
    } else {
      assert FreshAt(uuid, i);
      assert uuid(j) in Issued(uuid, i);
    }
  }

  /** The chunks `AddChildren` appends are children of `parent` cut from `texts`. */
  lemma {:induction false} AddChildrenShape(cs: seq<Chunk>, parent: Chunk, texts: seq<string>, n: nat, k: nat, uuid: nat -> string)
    requires n <= |texts|
    ensures forall c :: c in AddChildren(cs, parent, texts, n, k, uuid) ==>
              c in cs || (c.parentId == Some(parent.chunkId) && c.text in texts && !c.isParent
                          && c.page == parent.page && c.source == parent.source)
  {
    if n > 0 {
      AddChildrenShape(cs, parent, texts, n - 1, k, uuid);
    }
  }

  lemma AddParentGood(sp: Splitters, acc: Acc, text: string, source: string, page: int, idx: nat, uuid: nat -> string)
    requires Injective(uuid) && Good(sp, acc, source, uuid)
    ensures var acc' := AddParent(sp, acc, text, source, page, idx, uuid);
            Good(sp, acc', source, uuid) && acc'.next > acc.next
  {
    var id := uuid(acc.next);
    var parent := ParentChunk(text, source, page, idx, id);
    var cts := sp.ChildTexts(text);
    var acc' := AddParent(sp, acc, text, source, page, idx, uuid);
    assert FreshAt(uuid, acc.next);
    assert id !in acc.parentMap;
    IssuedGrows(uuid, acc.next, acc'.next);
    assert id in Issued(uuid, acc'.next);
    AddChildrenShape(acc.children, parent, cts, |cts|, acc.next + 1, uuid);
    forall c | c in acc'.children
      ensures LinkedChild(sp, acc'.parentMap, c, source)
    {
      if c in acc.children {
        assert LinkedChild(sp, acc.parentMap, c, source);
      }
    }
  }

  lemma {:induction false} PageAccGood(sp: Splitters, acc: Acc, pts: seq<string>, n: nat, source: string, page: int, uuid: nat -> string)
    requires n <= |pts|
    requires Injective(uuid) && Good(sp, acc, source, uuid)
    ensures Good(sp, PageAcc(sp, acc, pts, n, source, page, uuid), source, uuid)
  {
    if n > 0 {
      PageAccGood(sp, acc, pts, n - 1, source, page, uuid);
      AddParentGood(sp, PageAcc(sp, acc, pts, n - 1, source, page, uuid), pts[n - 1], source, page, n - 1, uuid);
    }
  }

  lemma {:induction false} ChunkSegmentsGood(sp: Splitters, acc: Acc, segs: seq<Segment>, source: string, uuid: nat -> string)
    requires Injective(uuid) && Good(sp, acc, source, uuid)
    ensures Good(sp, ChunkSegments(sp, acc, segs, source, uuid), source, uuid)
    decreases |segs|
  {
    if segs != [] {
      var pts := sp.ParentTexts(segs[0].text);
      PageAccGood(sp, acc, pts, |pts|, source, segs[0].page, uuid);
      ChunkSegmentsGood(sp, ChunkPage(sp, acc, segs[0], source, uuid), segs[1..], source, uuid);
    }
  }

  /**
   * The output of `process`: each child's `parent_id` resolves in the parent
   * map to a parent chunk of the same file and page whose text the child was
   * cut from, and each map entry is a parent chunk under its own id.
   */
  lemma ProcessLinksChildrenToParents(sp: Splitters, text: string, source: string, uuid: nat -> string)
    requires Injective(uuid)
    requires ProcessSpec(sp, text, source, uuid).Ok?
    ensures var (cs, pm) := ProcessSpec(sp, text, source, uuid).value;
            && (forall c :: c in cs ==> LinkedChild(sp, pm, c, Basename(source)))
            && (forall id :: id in pm ==> GoodParent(pm, id, Basename(source)))
  {
    if text != [] {
      ChunkSegmentsGood(sp, Acc([], map[], 0), Attribute(text, 0), Basename(source), uuid);
    }
  }

  // ------------------------------------------------ order of the children

  function Texts(cs: seq<Chunk>): (ts: seq<string>)
    ensures |ts| == |cs|
  {
    seq(|cs|, i requires 0 <= i < |cs| => cs[i].text)
  }

  /** The child texts of the first `n` parent texts, parent by parent. */
  function FlatChildTexts(sp: Splitters, pts: seq<string>, n: nat): seq<string>
    requires n <= |pts|
  {
    if n == 0 then [] else FlatChildTexts(sp, pts, n - 1) + sp.ChildTexts(pts[n - 1])
  }

  lemma TextsAppend(a: seq<Chunk>, b: seq<Chunk>)
    ensures Texts(a + b) == Texts(a) + Texts(b)
  {
    assert forall i :: 0 <= i < |a + b| ==> Texts(a + b)[i] == (Texts(a) + Texts(b))[i];
  }

  lemma {:induction false} AddChildrenTexts(cs: seq<Chunk>, parent: Chunk, texts: seq<string>, n: nat, k: nat, uuid: nat -> string)
    requires n <= |texts|
    ensures Texts(AddChildren(cs, parent, texts, n, k, uuid)) == Texts(cs) + texts[..n]
  {
    if n > 0 {
      AddChildrenTexts(cs, parent, texts, n - 1, k, uuid);
      var c := ChildChunk(texts[n - 1], parent, uuid(k + n - 1));
      TextsAppend(AddChildren(cs, parent, texts, n - 1, k, uuid), [c]);
      assert Texts([c]) == [texts[n - 1]];
      assert texts[..n] == texts[..n - 1] + [texts[n - 1]];
    }
  }

  /**
   * On one page, the child chunks are the child splitter's output on each
   * parent text in turn, each in the splitter's order.
   */
  lemma {:induction false} PageChildrenInOrder(sp: Splitters, acc: Acc, pts: seq<string>, n: nat, source: string, page: int, uuid: nat -> string)
    requires n <= |pts|
    ensures Texts(PageAcc(sp, acc, pts, n, source, page, uuid).children) == Texts(acc.children) + FlatChildTexts(sp, pts, n)
  {
    if n > 0 {
      PageChildrenInOrder(sp, acc, pts, n - 1, source, page, uuid);
      var prev := PageAcc(sp, acc, pts, n - 1, source, page, uuid);
      var cts := sp.ChildTexts(pts[n - 1]);
      var parent := ParentChunk(pts[n - 1], source, page, n - 1, uuid(prev.next));
      AddChildrenTexts(prev.children, parent, cts, |cts|, prev.next + 1, uuid);
      assert cts[..|cts|] == cts;
    }
  }

  ghost predicate KeysIssued(acc: Acc, uuid: nat -> string) {
    forall id :: id in acc.parentMap ==> id in Issued(uuid, acc.next)
  }

  lemma {:induction false} PageKeysIssued(sp: Splitters, acc: Acc, pts: seq<string>, n: nat, source: string, page: int, uuid: nat -> string)
    requires n <= |pts| && KeysIssued(acc, uuid)
    ensures var o := PageAcc(sp, acc, pts, n, source, page, uuid);
            KeysIssued(o, uuid) && o.next >= acc.next
  {
    if n > 0 {
      PageKeysIssued(sp, acc, pts, n - 1, source, page, uuid);
      var prev := PageAcc(sp, acc, pts, n - 1, source, page, uuid);
      var o := PageAcc(sp, acc, pts, n, source, page, uuid);
      IssuedGrows(uuid, prev.next, o.next);
      assert uuid(prev.next) in Issued(uuid, o.next);
    }
  }

  /**
   * Each parent goes into the map under a fresh id, as a parent chunk
   * carrying its position on the page, and no earlier entry is overwritten.
   */
  lemma AddParentStores(sp: Splitters, acc: Acc, text: string, source: string, page: int, idx: nat, uuid: nat -> string)
    requires Injective(uuid) && KeysIssued(acc, uuid)
    ensures var o := AddParent(sp, acc, text, source, page, idx, uuid);
            var id := uuid(acc.next);
            && id !in acc.parentMap
            && o.parentMap == acc.parentMap[id := ParentChunk(text, source, page, idx, id)]
            && |o.parentMap| == |acc.parentMap| + 1
  {
    assert FreshAt(uuid, acc.next);
  }
}
