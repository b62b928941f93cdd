/**
 * The external-service helpers of the RAG core: the fail-soft image
 * analysis, and the chart listing of a chat session, which turns the chart
 * images found on disk into records and sorts them by document and page.
 * The vision service's answer, the directories that exist and what `glob`
 * finds in them are inputs.
 */
module Services {
  import opened Wrappers
  import opened Strings
  import opened Sorting

  /** The vision service's JSON `description` (None when absent), or the exception the request raised. */
  type VisionReply = Result<Option<string>, string>

  const AnalysisFailed := "Image analysis failed."

  /** `analyze_image`: the description ("" when the answer has none), or the fixed failure text. */
  function AnalyzeImage(reply: VisionReply): (desc: string)
    ensures reply.Err? ==> desc == AnalysisFailed
    ensures reply.Ok? && reply.value.Some? ==> desc == reply.value.value
    ensures reply.Ok? && reply.value.None? ==> desc == ""
  {
    match reply
    case Err(_) => AnalysisFailed
    case Ok(d) => d.GetOr("")
  }

  // ------------------------------------------------------------ chart pages

  /** `page` followed by a digit starts at `i`. */
  predicate PageTagAt(s: string, i: nat) {
    i + 4 < |s| && s[i..i + 4] == "page" && IsDigitChar(s[i + 4])
  }

  /** The leftmost match of `page(\d+)` at or after `i`. */
  function FirstPageTag(s: string, i: nat): (r: Option<nat>)
    ensures r.Some? ==> i <= r.value && PageTagAt(s, r.value)
    ensures r.Some? ==> forall j :: i <= j < r.value ==> !PageTagAt(s, j)
    ensures r.None? ==> forall j :: i <= j ==> !PageTagAt(s, j)
    decreases |s| - i
  {
    if i + 4 >= |s| then None
    else if PageTagAt(s, i) then Some(i)
    else FirstPageTag(s, i + 1)
  }

  /** The longest run of digits at the start of `s`. */
  function LeadingDigits(s: string): (r: string)
    ensures |r| <= |s| && r == s[..|r|]
    ensures forall k :: 0 <= k < |r| ==> IsDigitChar(r[k])
    ensures |r| == |s| || !IsDigitChar(s[|r|])
  {
    if s != [] && IsDigitChar(s[0]) then [s[0]] + LeadingDigits(s[1..]) else []
  }

  /**
   * The page of a chart file: the number after the first `page` that is
   * followed by digits (all of them, as the regex is greedy), else 0.
   */
  function ChartPage(filename: string): (page: nat)
    ensures (forall j :: !PageTagAt(filename, j)) ==> page == 0
  {
    match FirstPageTag(filename, 0)
    case None => 0
    case Some(i) => DigitsValue(LeadingDigits(filename[i + 4..]))
  }

  /**
   * The parser names a PDF crop `page{n}_visual_{k}.png`; the chart listing
   * reads `n` back from such a name.
   */
  lemma ChartPageOfCrop(n: nat, suffix: string)
    requires suffix == [] || !IsDigitChar(suffix[0])
    ensures ChartPage("page" + NatToString(n) + suffix) == n
  {
    NatToStringDigits(n);
    ChartPageOfDigits(NatToString(n), suffix);
    NatToStringRoundTrip(n);
  }

  /** A name that starts with `page` and a run of digits is on the page those digits spell. */
  lemma ChartPageOfDigits(digits: string, suffix: string)
    requires IsDigits(digits)
    requires suffix == [] || !IsDigitChar(suffix[0])
    ensures ChartPage("page" + digits + suffix) == DigitsValue(digits)
  {
    var s := "page" + digits + suffix;
    assert s[..4] == "page" && s[4] == digits[0];
    assert PageTagAt(s, 0);
    assert s[4..] == digits + suffix;
    LeadingDigitsOf(digits, suffix);
  }

  lemma {:induction false} LeadingDigitsOf(digits: string, suffix: string)
    requires forall k :: 0 <= k < |digits| ==> IsDigitChar(digits[k])
    requires suffix == [] || !IsDigitChar(suffix[0])
    ensures LeadingDigits(digits + suffix) == digits
    decreases |digits|
  {
    if digits != [] {
      assert (digits + suffix)[1..] == digits[1..] + suffix;
      LeadingDigitsOf(digits[1..], suffix);
    } else {
      assert digits + suffix == suffix;
    }
  }

  // ---------------------------------------------------------- descriptions

  const NoDescription := "No description available."

  /**
   * The description of a chart: the value under its file name unless that
   * is missing or empty, else the value under the name without extension,
   * else the fixed text.
   */
  function ChartDescription(descriptions: map<string, string>, filename: string): (desc: string)
    ensures filename in descriptions && descriptions[filename] != "" ==> desc == descriptions[filename]
    ensures !(filename in descriptions && descriptions[filename] != "") ==>
              desc == if Splitext(filename).0 in descriptions then descriptions[Splitext(filename).0] else NoDescription
  {
    if filename in descriptions && descriptions[filename] != "" then descriptions[filename]
    else
      var stem := Splitext(filename).0;
      if stem in descriptions then descriptions[stem] else NoDescription
  }

  // ---------------------------------------------------------- chart records

  /** A document row of the session: `chart_dir`, `chart_descriptions`, `original_filename`. */
  datatype DbDoc = DbDoc(chartDir: Option<string>, chartDescriptions: map<string, string>, originalFilename: Option<string>)

  /** One `.png` under a chart directory, with its path relative to the data directory. */
  datatype ChartFile = ChartFile(path: string, relPath: string)

  datatype Chart = Chart(url: string, filename: string, docName: string, page: nat, description: string)

  /** What the service sees of the disk: the directories that exist, and what the recursive glob finds in each. */
  datatype Disk = Disk(dirs: set<string>, pngs: map<string, seq<ChartFile>>)
  {
    function Glob(dir: string): seq<ChartFile> {
      if dir in pngs then pngs[dir] else []
    }
  }

  const StaticBase := "http://localhost:8000/static"

  predicate HasCharts(doc: DbDoc, disk: Disk) {
    doc.chartDir.Some? && doc.chartDir.value != "" && doc.chartDir.value in disk.dirs
  }

  function ChartRecord(doc: DbDoc, f: ChartFile): (c: Chart)
    ensures c.filename == Basename(f.path)
    ensures c.docName == doc.originalFilename.GetOr("Unknown")
  {
    var filename := Basename(f.path);
    Chart(StaticBase + "/" + f.relPath, filename, doc.originalFilename.GetOr("Unknown"),
          ChartPage(filename), ChartDescription(doc.chartDescriptions, filename))
  }

  /** `acc` followed by the records of the first `n` files of a document, in glob order. */
  function FileCharts(acc: seq<Chart>, doc: DbDoc, files: seq<ChartFile>, n: nat): (cs: seq<Chart>)
    requires n <= |files|
    ensures |cs| == |acc| + n
  {
    if n == 0 then acc else FileCharts(acc, doc, files, n - 1) + [ChartRecord(doc, files[n - 1])]
  }

  /** `acc` followed by the records of one document: none unless its chart directory is set and exists. */
  function DocCharts(acc: seq<Chart>, doc: DbDoc, disk: Disk): seq<Chart> {
    if HasCharts(doc, disk) then
      var files := disk.Glob(doc.chartDir.value);
      FileCharts(acc, doc, files, |files|)
    else acc
  }

  /** The records of the documents, in document order, before sorting. */
  function Collected(docs: seq<DbDoc>, disk: Disk): seq<Chart>
    decreases |docs|
  {
    if docs == [] then [] else DocCharts(Collected(docs[..|docs| - 1], disk), docs[|docs| - 1], disk)
  }

  /** The sort key `(doc_name, page)`, compared as Python compares tuples. */
  predicate ChartLe(a: Chart, b: Chart) {
    (LexLe(a.docName, b.docName) && a.docName != b.docName) || (a.docName == b.docName && a.page <= b.page)
  }

  /**
   * `get_charts_for_session`: the records of every document whose chart
   * directory is set and exists, file by file, stably sorted by
   * `(doc_name, page)`.
   */
  method GetChartsForSession(docs: seq<DbDoc>, disk: Disk) returns (charts: seq<Chart>)
    ensures charts == SortBy(Collected(docs, disk), ChartLe)
  {
    charts := [];
    for i := 0 to |docs|
      invariant charts == Collected(docs[..i], disk)
    {
      var doc := docs[i];
      assert docs[..i + 1][..i] == docs[..i];
      if doc.chartDir.None? || doc.chartDir.value == "" || doc.chartDir.value !in disk.dirs {
        continue;
      }
      var files := disk.Glob(doc.chartDir.value);
      ghost var before := charts;
      for j := 0 to |files|
        invariant charts == FileCharts(before, doc, files, j)
      {
        var f := files[j];
        var filename := Basename(f.path);
        var url := StaticBase + "/" + f.relPath;
        var page := ChartPage(filename);
        var desc := ChartDescription(doc.chartDescriptions, filename);
        var c := Chart(url, filename, doc.originalFilename.GetOr("Unknown"), page, desc);
        assert c == ChartRecord(doc, f);
        charts := charts + [c];
      }
    }
    assert docs[..|docs|] == docs;
    charts := SortBy(charts, ChartLe);
  }

  // ------------------------------------------------------------ properties

  lemma ChartOrder()
    ensures TotalPreorder(ChartLe)
  {
    forall a: Chart, b: Chart ensures ChartLe(a, b) || ChartLe(b, a) {
      LexLeTotal(a.docName, b.docName);
    }
    forall a: Chart, b: Chart, c: Chart | ChartLe(a, b) && ChartLe(b, c) ensures ChartLe(a, c) {
      if a.docName != b.docName && b.docName != c.docName {
        LexLeTransitive(a.docName, b.docName, c.docName);
        if a.docName == c.docName {
          LexLeAntisymmetric(a.docName, b.docName);
        }
      }
    }
  }

  /**
   * The listing is ordered by document name and then page, holds exactly
   * the collected records, and keeps records with the same name and page
   * in the order they were found.
   */
  lemma ChartsSortedStably(docs: seq<DbDoc>, disk: Disk, y: Chart)
    ensures var all := Collected(docs, disk);
            var charts := SortBy(all, ChartLe);
            && SortedBy(charts, ChartLe)
            && multiset(charts) == multiset(all)
            && SameKey(charts, y, ChartLe) == SameKey(all, y, ChartLe)
  {
    ChartOrder();
    SortBySorts(Collected(docs, disk), ChartLe);
    SortByStable(Collected(docs, disk), y, ChartLe);
  }

  /** One more document appends its records to the listing of those before it. */
  lemma CollectedSnoc(docs: seq<DbDoc>, doc: DbDoc, disk: Disk)
    ensures Collected(docs + [doc], disk) == DocCharts(Collected(docs, disk), doc, disk)
  {
    assert (docs + [doc])[..|docs|] == docs;
  }

  /** A document without a usable chart directory, wherever it stands, adds no charts. */
  lemma {:induction false} SkipInside(front: seq<DbDoc>, doc: DbDoc, rest: seq<DbDoc>, disk: Disk)
    requires !HasCharts(doc, disk)
    ensures Collected(front + [doc] + rest, disk) == Collected(front + rest, disk)
    decreases |rest|
  {
    if rest == [] {
      assert front + [doc] + rest == front + [doc];
      assert front + rest == front;
      CollectedSnoc(front, doc, disk);
    } else {
      var rest', last := rest[..|rest| - 1], rest[|rest| - 1];
      SkipInside(front, doc, rest', disk);
      assert front + [doc] + rest == (front + [doc] + rest') + [last];
      assert front + rest == (front + rest') + [last];
      CollectedSnoc(front + [doc] + rest', last, disk);
      CollectedSnoc(front + rest', last, disk);
    }
  }

  /** A document without a usable chart directory adds no charts: the listing is as if it were absent. */
  lemma SkippedDocContributesNothing(docs: seq<DbDoc>, k: nat, disk: Disk)
    requires k < |docs| && !HasCharts(docs[k], disk)
    ensures Collected(docs, disk) == Collected(docs[..k] + docs[k + 1..], disk)
  {
    assert docs == docs[..k] + [docs[k]] + docs[k + 1..];
    SkipInside(docs[..k], docs[k], docs[k + 1..], disk);
  }
}
