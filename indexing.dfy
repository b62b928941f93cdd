/**
 * What both `SmartRAG.index_document` methods do between the parser and
 * the chunker: for each chart image the parser cut out, the vision
 * service's description replaces the image's `[CHART_PLACEHOLDER:name]`
 * line in the markdown and is recorded under the image's file name.  The
 * parser's and the vision service's answers are inputs.
 */
module Indexing {
  import opened Wrappers
  import opened Strings
  import opened Chunks

  /** The parser's JSON: `text` and `images`, each None when the key is absent. */
  datatype ParseData = ParseData(text: Option<string>, images: Option<seq<string>>)

  /** The parser request: the exception it raised, or the status, body and decoded JSON (None when not JSON). */
  datatype ParserResponse =
    | ParserRaised(message: string)
    | ParserAnswered(status: int, body: string, data: Option<ParseData>)

  /** Why `index_document` raised. */
  datatype IndexingError =
    | ParserFailed(message: string)
    | ParserStatus(status: int)
    | NotJson
    | MissingKey(key: string)
    | DocumentTooLarge

  /** The state an `index_document` leaves (the index as the texts it embeds), and whether it raised. */
  datatype Indexed = Indexed(result: Result<(), IndexingError>, index: Option<seq<string>>, children: seq<Chunk>,
                             parents: map<string, Chunk>, descriptions: map<string, string>)

  /**
   * `parse_document`: the decoded JSON, unless the request raised, the
   * status was an HTTP error (400 to 599, which `raise_for_status` turns
   * into an exception) or the body was not JSON.
   */
  function ParseDocument(resp: ParserResponse): (r: Result<ParseData, IndexingError>)
    ensures r.Ok? <==> resp.ParserAnswered? && !(400 <= resp.status < 600) && resp.data.Some?
    ensures r.Ok? ==> r.value == resp.data.value
    ensures resp.ParserRaised? ==> r == Err(ParserFailed(resp.message))
  {
    match resp
    case ParserRaised(m) => Err(ParserFailed(m))
    case ParserAnswered(status, _, data) =>
      if 400 <= status < 600 then Err(ParserStatus(status))
      else if data.None? then Err(NotJson)
      else Ok(data.value)
  }

  // ------------------------------------------------------------ the texts

  /** `f"[CHART_PLACEHOLDER:{fname}]"` */
  function Placeholder(fname: string): (p: string)
    ensures |p| == |fname| + 20 && p[0] == '[' && p[|p| - 1] == ']'
    ensures p[19..|p| - 1] == fname
  {
    "[CHART_PLACEHOLDER:" + fname + "]"
  }

  /** `f"\n> **Visual Analysis ({fname}):**\n> {desc}\n"` */
  function VisualBlock(fname: string, desc: string): (b: string)
    ensures |b| > 0 && b[0] == '\n' && b[|b| - 1] == '\n'
  {
    "\n> **Visual Analysis (" + fname + "):**\n> " + desc + "\n"
  }

  predicate Lacks(s: string, c: char) {
    forall j :: 0 <= j < |s| ==> s[j] != c
  }

  /** The placeholder of `fname` does not occur in `s`. */
  ghost predicate Gone(s: string, fname: string) {
    forall i :: !OccursAt(s, Placeholder(fname), i)
  }

  /** The placeholder of `fname` occurs in `s`. */
  ghost predicate Present(s: string, fname: string) {
    exists i :: OccursAt(s, Placeholder(fname), i)
  }

  /** A file name that cannot take part in, or end, another placeholder. */
  predicate PlainName(fname: string) {
    Lacks(fname, '[') && Lacks(fname, ']') && Lacks(fname, '\n')
  }

  /** The name an image's placeholder carries: `os.path.basename(img_path)`. */
  function NameOf(images: seq<string>, k: nat): string
    requires k < |images|
  {
    Basename(images[k])
  }

  /**
   * The markdown after the first `n` images: the placeholder of each image
   * that got a description (`descs[k]` is None when the vision call raised)
   * replaced by its block, one image after the other.
   */
  function Injected(text: string, images: seq<string>, descs: seq<Option<string>>, n: nat): string
    requires n <= |images| == |descs|
  {
    if n == 0 then text
    else
      var t := Injected(text, images, descs, n - 1);
      match descs[n - 1]
      case None => t
      case Some(d) => Replace(t, Placeholder(NameOf(images, n - 1)), VisualBlock(NameOf(images, n - 1), d))
  }

  /** `chart_descriptions` after the first `n` images. */
  function Described(m: map<string, string>, images: seq<string>, descs: seq<Option<string>>, n: nat): map<string, string>
    requires n <= |images| == |descs|
  {
    if n == 0 then m
    else
      var m' := Described(m, images, descs, n - 1);
      match descs[n - 1]
      case None => m'
      case Some(d) => m'[NameOf(images, n - 1) := d]
  }

  // ---------------------------------------------------- the descriptions

  /** Exactly the described images' names are added to the map. */
  lemma {:induction false} DescribedKeys(m: map<string, string>, images: seq<string>, descs: seq<Option<string>>, n: nat)
    requires n <= |images| == |descs|
    ensures Described(m, images, descs, n).Keys == m.Keys + DescribedNames(images, descs, n)
  {
    if n > 0 {
      DescribedKeys(m, images, descs, n - 1);
    }
  }

  /** The names of the described images among the first `n`. */
  ghost function DescribedNames(images: seq<string>, descs: seq<Option<string>>, n: nat): set<string>
    requires n <= |images| == |descs|
  {
    if n == 0 then {}
    else DescribedNames(images, descs, n - 1) + (if descs[n - 1].Some? then {NameOf(images, n - 1)} else {})
  }

  /** When every image was described, the described names are all the images' names. */
  lemma {:induction false} AllDescribed(images: seq<string>, descs: seq<Option<string>>, n: nat)
    requires n <= |images| == |descs|
    requires forall k :: 0 <= k < n ==> descs[k].Some?
    ensures forall x :: x in DescribedNames(images, descs, n) <==> exists k :: 0 <= k < n && NameOf(images, k) == x
  {
    if n > 0 {
      AllDescribed(images, descs, n - 1);
    }
  }

  /** A name maps to the description of the last image of that name that was described. */
  lemma {:induction false} DescribedLatest(m: map<string, string>, images: seq<string>, descs: seq<Option<string>>, n: nat, k: nat)
    requires n <= |images| == |descs|
    requires k < n && descs[k].Some?
    requires forall j :: k < j < n && descs[j].Some? ==> NameOf(images, j) != NameOf(images, k)
    ensures NameOf(images, k) in Described(m, images, descs, n)
    ensures Described(m, images, descs, n)[NameOf(images, k)] == descs[k].value
  {
    var m' := Described(m, images, descs, n - 1);
    if k < n - 1 {
      DescribedLatest(m, images, descs, n - 1, k);
      if descs[n - 1].Some? {
        assert NameOf(images, n - 1) != NameOf(images, k);
        assert Described(m, images, descs, n) == m'[NameOf(images, n - 1) := descs[n - 1].value];
      } else {
        assert Described(m, images, descs, n) == m';
      }
    } else {
      assert Described(m, images, descs, n) == m'[NameOf(images, k) := descs[k].value];
    }
  }

  // ------------------------------------------------------ the placeholders

  lemma PlaceholderChars(fname: string)
    requires PlainName(fname)
    ensures var p := Placeholder(fname);
            && (forall x :: 0 < x < |p| ==> p[x] != '[')
            && (forall x :: 0 <= x < |p| - 1 ==> p[x] != ']')
            && !HasNewline(p)
  {
    var p := Placeholder(fname);
    assert forall x :: 19 <= x < |p| - 1 ==> p[x] == fname[x - 19];
  }

  lemma OccursChars(s: string, q: string, p: int)
    requires OccursAt(s, q, p)
    ensures forall x :: 0 <= x < |q| ==> s[p + x] == q[x]
  {
    forall x | 0 <= x < |q| ensures s[p + x] == q[x] {
      assert s[p..p + |q|][x] == s[p + x];
    }
  }

  /** Placeholders of two different plain names never overlap. */
  lemma PlaceholdersApart(s: string, f: string, g: string, p: int, i: int)
    requires PlainName(f) && PlainName(g) && f != g
    requires OccursAt(s, Placeholder(f), p) && OccursAt(s, Placeholder(g), i)
    ensures p + |Placeholder(f)| <= i || i + |Placeholder(g)| <= p
  {
    var pf, pg := Placeholder(f), Placeholder(g);
    PlaceholderChars(f);
    PlaceholderChars(g);
    OccursChars(s, pf, p);
    OccursChars(s, pg, i);
    if p < i < p + |pf| {
      assert s[p + (i - p)] == pf[i - p];
      assert s[i + 0] == pg[0];
    } else if i < p < i + |pg| {
      assert s[i + (p - i)] == pg[p - i];
      assert s[p + 0] == pf[0];
    }
  }

  /** A text without `[` holds no placeholder. */
  lemma NoPlaceholderWithoutBracket(b: string, fname: string)
    ensures forall i :: OccursAt(b, Placeholder(fname), i) ==> !Lacks(b, '[')
  {
    forall i | OccursAt(b, Placeholder(fname), i) ensures !Lacks(b, '[') {
      assert b[i..i + |Placeholder(fname)|][0] == b[i];
    }
  }

  lemma BlockLacksBracket(fname: string, desc: string)
    requires Lacks(fname, '[') && Lacks(desc, '[')
    ensures Lacks(VisualBlock(fname, desc), '[')
  {
    var b := VisualBlock(fname, desc);
    var pre := "\n> **Visual Analysis (" + fname + "):**\n> ";
    assert b == pre + desc + "\n";
    assert forall j :: 22 <= j < 22 + |fname| ==> pre[j] == fname[j - 22];
  }

  /** One replacement leaves no placeholder of its own name, and brings none back. */
  lemma ReplacementLeavesNone(t: string, f: string, d: string, g: string)
    requires PlainName(f) && PlainName(g) && Lacks(d, '[')
    requires g == f || Gone(t, g)
    ensures Gone(Replace(t, Placeholder(f), VisualBlock(f, d)), g)
  {
    BlockLacksBracket(f, d);
    PlaceholderChars(g);
    NoPlaceholderWithoutBracket(VisualBlock(f, d), g);
    ReplaceLeavesNone(t, Placeholder(f), VisualBlock(f, d), Placeholder(g));
  }

  /**
   * Every described image's placeholder is gone from the markdown, provided
   * no image name holds `[`, `]` or a newline and no description holds `[`
   * (else a description could carry a placeholder back in).
   */
  lemma {:induction false} PlaceholdersReplaced(text: string, images: seq<string>, descs: seq<Option<string>>, n: nat)
    requires n <= |images| == |descs|
    requires forall k :: 0 <= k < n ==> PlainName(NameOf(images, k))
    requires forall k :: 0 <= k < n && descs[k].Some? ==> Lacks(descs[k].value, '[')
    ensures forall k :: 0 <= k < n && descs[k].Some? ==> Gone(Injected(text, images, descs, n), NameOf(images, k))
  {
    if n > 0 {
      PlaceholdersReplaced(text, images, descs, n - 1);
      var t := Injected(text, images, descs, n - 1);
      match descs[n - 1]
      case None =>
        assert Injected(text, images, descs, n) == t;
      case Some(d) =>
        var f := NameOf(images, n - 1);
        var t' := Replace(t, Placeholder(f), VisualBlock(f, d));
        assert Injected(text, images, descs, n) == t';
        forall k | 0 <= k < n && descs[k].Some? ensures Gone(t', NameOf(images, k)) {
          ReplacementLeavesNone(t, f, d, NameOf(images, k));
        }
    }
  }

  /**
   * A placeholder stays in the markdown when its image got no description
   * and no described image has the same name (names holding no `[`, `]` or
   * newline): the block of one image never replaces another's placeholder.
   */
  lemma {:induction false} UndescribedPlaceholderStays(text: string, images: seq<string>, descs: seq<Option<string>>, n: nat, g: string)
    requires n <= |images| == |descs|
    requires PlainName(g) && forall k :: 0 <= k < n ==> PlainName(NameOf(images, k))
    requires forall k :: 0 <= k < n && descs[k].Some? ==> NameOf(images, k) != g
    requires Present(text, g)
    ensures Present(Injected(text, images, descs, n), g)
  {
    if n > 0 {
      UndescribedPlaceholderStays(text, images, descs, n - 1, g);
      InjectedKeeps(text, images, descs, n, g);
    }
  }

  /** One more image keeps a placeholder of another name. */
  lemma InjectedKeeps(text: string, images: seq<string>, descs: seq<Option<string>>, n: nat, g: string)
    requires 0 < n <= |images| == |descs|
    requires PlainName(g) && PlainName(NameOf(images, n - 1))
    requires descs[n - 1].Some? ==> NameOf(images, n - 1) != g
    requires Present(Injected(text, images, descs, n - 1), g)
    ensures Present(Injected(text, images, descs, n), g)
  {
    if descs[n - 1].Some? {
      ReplacementKeepsOthers(Injected(text, images, descs, n - 1), NameOf(images, n - 1), descs[n - 1].value, g);
    }
  }

  /** Replacing one image's placeholder keeps another's: two placeholders never overlap. */
  lemma ReplacementKeepsOthers(t: string, f: string, d: string, g: string)
    requires PlainName(f) && PlainName(g) && f != g && Present(t, g)
    ensures Present(Replace(t, Placeholder(f), VisualBlock(f, d)), g)
  {
    var i :| OccursAt(t, Placeholder(g), i);
    forall p | OccursAt(t, Placeholder(f), p)
      ensures p + |Placeholder(f)| <= i || i + |Placeholder(g)| <= p
    {
      PlaceholdersApart(t, f, g, p, i);
    }
    ReplaceKeepsApart(t, Placeholder(f), VisualBlock(f, d), Placeholder(g), i);
  }

  /** With no description at all, the markdown and the map stay as they were. */
  lemma {:induction false} NothingDescribed(text: string, m: map<string, string>, images: seq<string>, descs: seq<Option<string>>, n: nat)
    requires n <= |images| == |descs|
    requires forall k :: 0 <= k < n ==> descs[k].None?
    ensures Injected(text, images, descs, n) == text
    ensures Described(m, images, descs, n) == m
  {
    if n > 0 {
      NothingDescribed(text, m, images, descs, n - 1);
    }
  }
}
