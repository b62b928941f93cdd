/**
 * The answer prompt both pipelines build from ranked search results: one
 * `SOURCE:`/`CONTENT:` block per result, in rank order, between a fixed
 * header and the question.
 */
module Prompting {
  import opened Chunks
  import opened Retrieval

  /** `f"SOURCE: {chunk.source}\nCONTENT: {chunk.text}\n\n---\n\n"` */
  function SourceBlock(c: Chunk): string {
    "SOURCE: " + c.source + "\nCONTENT: " + c.text + "\n\n---\n\n"
  }

  /** The context string after the results `rs`, block by block. */
  function ContextString(rs: seq<Scored>): string {
    if rs == [] then "" else ContextString(rs[..|rs| - 1]) + SourceBlock(rs[|rs| - 1].chunk)
  }

  /** The `context_str +=` loop. */
  method BuildContext(rs: seq<Scored>) returns (context: string)
    ensures context == ContextString(rs)
  {
    context := "";
    for i := 0 to |rs|
      invariant context == ContextString(rs[..i])
    {
      assert rs[..i + 1][..i] == rs[..i];
      context := context + SourceBlock(rs[i].chunk);
    }
    assert rs[..|rs|] == rs;
  }

  /** The context of two runs of results is the two contexts one after the other. */
  lemma {:induction false} ContextConcat(a: seq<Scored>, b: seq<Scored>)
    ensures ContextString(a + b) == ContextString(a) + ContextString(b)
    decreases |b|
  {
    if b == [] {
      assert a + b == a;
    } else {
      var b' := b[..|b| - 1];
      var x := b[|b| - 1];
      assert (a + b)[..|a + b| - 1] == a + b';
      ContextConcat(a, b');
      assert ContextString(a + b) == ContextString(a + b') + SourceBlock(x.chunk);
      assert ContextString(b) == ContextString(b') + SourceBlock(x.chunk);
    }
  }

  lemma ContextOfOne(x: Scored)
    ensures ContextString([x]) == SourceBlock(x.chunk)
  {
    assert [x][..0] == [];
  }

  lemma SplitAround<T>(s: seq<T>, k: nat)
    requires k < |s|
    ensures s == s[..k] + [s[k]] + s[k + 1..]
  {
  }

  /** Result `k` contributes its own block, after the blocks of the results ranked above it. */
  lemma ContextBlocks(rs: seq<Scored>, k: nat)
    requires k < |rs|
    ensures ContextString(rs) == ContextString(rs[..k]) + SourceBlock(rs[k].chunk) + ContextString(rs[k + 1..])
  {
    var a, x, b := rs[..k], rs[k], rs[k + 1..];
    SplitAround(rs, k);
    ContextConcat(a + [x], b);
    ContextConcat(a, [x]);
    ContextOfOne(x);
  }

  const PromptHeader := "Context:\n"
  const QuestionLead := "\n\nQuestion: "
  const PromptTrailer := "\n\nAnswer using the context provided."

  /** `f"Context:\n{context}\n\nQuestion: {question}\n\nAnswer using the context provided."` */
  function AnswerPrompt(question: string, context: string): string {
    PromptHeader + context + QuestionLead + question + PromptTrailer
  }

  /**
   * The prompt for ranked results holds, in order: the header, each
   * result's block in rank order, the question and the closing instruction.
   */
  lemma PromptLayout(question: string, rs: seq<Scored>, k: nat)
    requires k < |rs|
    ensures AnswerPrompt(question, ContextString(rs))
            == PromptHeader + (ContextString(rs[..k]) + SourceBlock(rs[k].chunk) + ContextString(rs[k + 1..]))
               + QuestionLead + question + PromptTrailer
  {
    ContextBlocks(rs, k);
  }
}
